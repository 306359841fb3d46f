/** The season sealer (orchard_chia/datalayer/main.py, `_attest_body`): which attest records a run
    writes, at whatever block height it runs, and what it never overwrites. */
module AttestWriter {
  import opened Ordering
  import opened Schema
  import opened Seal
  import opened Changelist

  /** What the oracle answers for one Tree and season. */
  datatype Uptime = OracleDown | NoData | Uptime(hours: int, start: string, end: string, sealTime: string)

  /** The published readings, read strictly. */
  datatype Published = ReadError | Published(records: seq<HourRecord>)

  datatype Node = Node(id: string, first: int, devicePub: Option<PubKey>)

  type Key = (string, int)

  /** A value of the store: an attest record, or bytes that are not one. */
  datatype Stored = Record(attest: Attest) | Other(text: string)

  type Store = map<Key, Stored>

  datatype Env = Env(w: World, seed: Seed, skipEmpty: bool, writePlaceholders: bool,
                     uptime: (string, int) -> Uptime, published: (string, int) -> Published,
                     readFails: (string, int) -> bool)

  function KeyFor(id: string, season: int): Key { (Upper(id), season) }

  /** `existing_hex`: a failed read looks like a missing record. */
  function Existing(env: Env, store: Store, id: string, season: int): Option<Stored> {
    if env.readFails(id, season) then None else Get(store, KeyFor(id, season))
  }

  // What is to be sealed.

  ghost function PayloadFor(env: Env, n: Node, season: int, height: int): Option<AttestBody> {
    match env.uptime(n.id, season)
    case OracleDown => None
    case NoData => None
    case Uptime(hours, start, end, sealTime) =>
      if hours == 0 && env.skipEmpty then None
      else
        match env.published(n.id, season)
        case ReadError => None
        case Published(records) =>
          match SealOf(env.w, records, n.devicePub, MIN_VERIFIED_READINGS_PER_HOUR, env.w.window(start, end))
          case Some(s) =>
            Some(BuildAttest(n.id, season, start, end, hours, s.verifiedHours, s.readingCount, height, s.seasonRoot,
                             sealTime, SEAL_READINGS, s.sigsVerified, s.rootMismatches, s.minReadings))
          case None =>
            if !env.writePlaceholders then None
            else
              Some(BuildAttest(n.id, season, start, end, hours, 0, 0, height,
                               env.w.placeholderRoot(n.id, season, hours), sealTime, SEAL_PLACEHOLDER, false,
                               0, MIN_VERIFIED_READINGS_PER_HOUR))
  }

  function AtHeight(b: AttestBody, height: Option<int>): AttestBody { b.(blockHeight := height) }

  /** Only the height of a payload depends on the height. */
  lemma PayloadAtHeight(env: Env, n: Node, season: int, h: int, h': int)
    ensures PayloadFor(env, n, season, h).Some? <==> PayloadFor(env, n, season, h').Some?
    ensures PayloadFor(env, n, season, h).Some? ==>
              && PayloadFor(env, n, season, h').value == AtHeight(PayloadFor(env, n, season, h).value, Some(h'))
              && PayloadFor(env, n, season, h).value.blockHeight == Some(h)
  {
    hide SealOf;
  }

  predicate ProofBacked(s: Stored) { s.Record? && Basis(s.attest.body, NoVersion) == Some(true) }

  // The decision for one Tree and season.

  /** The record on chain is this payload, sealed at the height it carries. */
  predicate Unchanged(env: Env, payload: AttestBody, existing: Option<Stored>) {
    && existing.Some? && existing.value.Record? && existing.value.attest.body.blockHeight.Some?
    && Record(SignAttest(env.w, AtHeight(payload, existing.value.attest.body.blockHeight), env.seed)) == existing.value
  }

  predicate Writes(env: Env, payload: AttestBody, existing: Option<Stored>) {
    var signed := Record(SignAttest(env.w, payload, env.seed));
    && !Unchanged(env, payload, existing) && existing != Some(signed)
    && !(existing.Some? && ProofBacked(existing.value) && !ProofBacked(signed))
  }

  ghost function SeasonChanges(env: Env, store: Store, n: Node, season: int, height: int): seq<Change<Key, Stored>> {
    var payload := PayloadFor(env, n, season, height);
    if payload.None? then []
    else
      var existing, key := Existing(env, store, n.id, season), KeyFor(n.id, season);
      if !Writes(env, payload.value, existing) then []
      else
        (if existing.Some? then [Delete(key)] else [])
        + [Insert(key, Record(SignAttest(env.w, payload.value, env.seed)))]
  }

  /** The seasons of one Tree before `current`, oldest first. */
  ghost function NodeChanges(env: Env, store: Store, n: Node, current: int, height: int): seq<Change<Key, Stored>>
    decreases current - n.first
  {
    if current <= n.first then []
    else NodeChanges(env, store, n, current - 1, height) + SeasonChanges(env, store, n, current - 1, height)
  }

  ghost function RunChanges(env: Env, store: Store, nodes: seq<Node>, current: int, height: int)
    : seq<Change<Key, Stored>>
  {
    if nodes == [] then []
    else
      RunChanges(env, store, nodes[..|nodes| - 1], current, height)
      + NodeChanges(env, store, nodes[|nodes| - 1], current, height)
  }

  // The loops.

  method PayloadOf(env: Env, n: Node, season: int, height: int) returns (payload: Option<AttestBody>)
    ensures payload == PayloadFor(env, n, season, height)
  {
    hide SealOf;
    var uptime := env.uptime(n.id, season);
    if !uptime.Uptime? { return None; }
    if uptime.hours == 0 && env.skipEmpty { return None; }
    var published := env.published(n.id, season);
    if published.ReadError? { return None; }
    var sealed := SealFromReadings(env.w, published.records, n.devicePub, MIN_VERIFIED_READINGS_PER_HOUR,
                                   env.w.window(uptime.start, uptime.end));
    var s := sealed.value;
    if s.Some? {
      return Some(BuildAttest(n.id, season, uptime.start, uptime.end, uptime.hours, s.value.verifiedHours,
                              s.value.readingCount, height, s.value.seasonRoot, uptime.sealTime, SEAL_READINGS,
                              s.value.sigsVerified, s.value.rootMismatches, s.value.minReadings));
    }
    if !env.writePlaceholders { return None; }
    return Some(BuildAttest(n.id, season, uptime.start, uptime.end, uptime.hours, 0, 0, height,
                            env.w.placeholderRoot(n.id, season, uptime.hours), uptime.sealTime, SEAL_PLACEHOLDER,
                            false, 0, MIN_VERIFIED_READINGS_PER_HOUR));
  }

  method SealSeason(env: Env, store: Store, n: Node, season: int, height: int)
    returns (changes: seq<Change<Key, Stored>>)
    ensures changes == SeasonChanges(env, store, n, season, height)
  {
    hide PayloadFor, SignAttest, Basis;
    var payload := PayloadOf(env, n, season, height);
    if payload.None? { return []; }
    var key := KeyFor(n.id, season);
    var existing := if env.readFails(n.id, season) then None else Get(store, key);
    if existing.Some? && existing.value.Record? && existing.value.attest.body.blockHeight.Some? {
      var asBefore := SignAttest(env.w, AtHeight(payload.value, existing.value.attest.body.blockHeight), env.seed);
      if Record(asBefore) == existing.value { return []; }
    }
    var signed := Record(SignAttest(env.w, payload.value, env.seed));
    if existing == Some(signed) { return []; }
    if existing.Some? && ProofBacked(existing.value) && !ProofBacked(signed) { return []; }
    changes := [];
    if existing.Some? { changes := changes + [Delete(key)]; }
    changes := changes + [Insert(key, signed)];
  }

  method AttestBodyRun(env: Env, store: Store, nodes: seq<Node>, current: int, height: int)
    returns (changes: seq<Change<Key, Stored>>)
    ensures changes == RunChanges(env, store, nodes, current, height)
  {
    hide SeasonChanges;
    changes := [];
    for i := 0 to |nodes|
      invariant changes == RunChanges(env, store, nodes[..i], current, height)
    {
      assert nodes[..i + 1][..i] == nodes[..i];
      var n := nodes[i];
      var season, mine := n.first, [];
      while season < current
        invariant n.first <= season && (season <= current || season == n.first)
        invariant mine == NodeChanges(env, store, n, season, height)
        invariant changes == RunChanges(env, store, nodes[..i], current, height)
      {
        var more := SealSeason(env, store, n, season, height);
        mine := mine + more;
        season := season + 1;
      }
      assert mine == NodeChanges(env, store, n, current, height);
      changes := changes + mine;
    }
    assert nodes[..|nodes|] == nodes;
  }

  ghost function After(env: Env, store: Store, nodes: seq<Node>, current: int, height: int): Store {
    ApplyAll(store, RunChanges(env, store, nodes, current, height))
  }

  // Never downgrading.

  /** Whatever a changelist inserts over a proof-backed record is proof-backed. */
  ghost predicate Guarded(store: Store, changes: seq<Change<Key, Stored>>) {
    && (forall c :: c in changes && c.Insert? && c.key in store && ProofBacked(store[c.key]) ==> ProofBacked(c.value))
    && EndsInserted(changes)
  }

  /** No key is left deleted: every delete is followed by an insert of its key. */
  ghost predicate EndsInserted(changes: seq<Change<Key, Stored>>) {
    Touched(changes) == InsertsOf(changes).Keys
  }

  lemma {:induction false} InsertsAppend(a: seq<Change<Key, Stored>>, b: seq<Change<Key, Stored>>)
    requires EndsInserted(a) && EndsInserted(b)
    ensures EndsInserted(a + b)
  {
    InsertsAreTheContents(map[], a + b);
    InsertsAreTheContents(map[], a);
    InsertsAreTheContents(InsertsOf(a), b);
    ApplyAppend(map[], a, b);
    hide ApplyAll, InsertsOf;
    assert Touched(a + b) == Touched(a) + Touched(b);
    assert ApplyAll(map[], a) == InsertsOf(a);
    assert ApplyAll(map[], a + b) == InsertsOf(a + b);
  }

  lemma GuardedAppend(store: Store, a: seq<Change<Key, Stored>>, b: seq<Change<Key, Stored>>)
    requires Guarded(store, a) && Guarded(store, b)
    ensures Guarded(store, a + b)
  {
    InsertsAppend(a, b);
    hide EndsInserted, ProofBacked;
  }

  ghost predicate FaithfulReads(env: Env) { forall id, season :: !env.readFails(id, season) }

  lemma SeasonIsGuarded(env: Env, store: Store, n: Node, season: int, height: int)
    requires FaithfulReads(env)
    ensures Guarded(store, SeasonChanges(env, store, n, season, height))
  {
    hide PayloadFor, ProofBacked, Unchanged;
    var changes := SeasonChanges(env, store, n, season, height);
    if changes == [] {
      NothingIsGuarded(store);
    } else {
      var insert := changes[|changes| - 1];
      WriteEndsInserted(insert.key, insert.value);
      assert changes == [insert] || changes == [Delete(insert.key), insert];
    }
  }

  lemma WriteEndsInserted(k: Key, v: Stored)
    ensures EndsInserted([Insert(k, v)]) && EndsInserted([Delete(k), Insert(k, v)])
  {
    var delete: Change<Key, Stored>, insert := Delete(k), Insert(k, v);
    var one, two := [insert], [delete, insert];
    assert one[..0] == [] && two[..1] == [delete] && [delete][..0] == [];
    assert InsertsOf(one) == map[k := v];
    assert InsertsOf([delete]) == map[] && InsertsOf(two) == map[k := v];
    assert one[0] in one && two[0] in two;
    assert Touched(one) == {k} && Touched(two) == {k};
  }

  lemma {:induction false} NodeIsGuarded(env: Env, store: Store, n: Node, current: int, height: int)
    requires FaithfulReads(env)
    ensures Guarded(store, NodeChanges(env, store, n, current, height))
    decreases current - n.first
  {
    hide Guarded, SeasonChanges;
    if current <= n.first {
      NothingIsGuarded(store);
    } else {
      NodeIsGuarded(env, store, n, current - 1, height);
      SeasonIsGuarded(env, store, n, current - 1, height);
      GuardedAppend(store, NodeChanges(env, store, n, current - 1, height),
                    SeasonChanges(env, store, n, current - 1, height));
    }
  }

  lemma NothingIsGuarded(store: Store)
    ensures Guarded(store, [])
  {}

  lemma {:induction false} RunIsGuarded(env: Env, store: Store, nodes: seq<Node>, current: int, height: int)
    requires FaithfulReads(env)
    ensures Guarded(store, RunChanges(env, store, nodes, current, height))
  {
    hide Guarded, NodeChanges;
    if nodes == [] {
      NothingIsGuarded(store);
    } else {
      var front, n := nodes[..|nodes| - 1], nodes[|nodes| - 1];
      RunIsGuarded(env, store, front, current, height);
      NodeIsGuarded(env, store, n, current, height);
      GuardedAppend(store, RunChanges(env, store, front, current, height), NodeChanges(env, store, n, current, height));
    }
  }

  lemma {:induction false} InsertedValues(changes: seq<Change<Key, Stored>>, k: Key)
    ensures k in InsertsOf(changes) ==> Insert(k, InsertsOf(changes)[k]) in changes
  {
    if changes != [] {
      InsertedValues(changes[..|changes| - 1], k);
      assert changes == changes[..|changes| - 1] + [changes[|changes| - 1]];
    }
  }

  /** A proof-backed record stays proof-backed through a run whose reads did not fail. */
  lemma NeverDowngraded(env: Env, store: Store, nodes: seq<Node>, current: int, height: int, k: Key)
    requires FaithfulReads(env) && k in store && ProofBacked(store[k])
    ensures k in After(env, store, nodes, current, height) && ProofBacked(After(env, store, nodes, current, height)[k])
  {
    RunIsGuarded(env, store, nodes, current, height);
    var changes := RunChanges(env, store, nodes, current, height);
    hide RunChanges, ProofBacked, InsertsOf;
    InsertsAreTheContents(store, changes);
    InsertedValues(changes, k);
  }

  /** One run: whatever the oracle and the published readings then say. */
  datatype Run = Run(env: Env, nodes: seq<Node>, current: int, height: int)

  ghost function AfterAll(store: Store, runs: seq<Run>): Store {
    if runs == [] then store
    else
      var r := runs[|runs| - 1];
      After(r.env, AfterAll(store, runs[..|runs| - 1]), r.nodes, r.current, r.height)
  }

  /** ... and through any number of them. */
  lemma {:induction false} NeverDowngradedEver(store: Store, runs: seq<Run>, k: Key)
    requires forall r :: r in runs ==> FaithfulReads(r.env)
    requires k in store && ProofBacked(store[k])
    ensures k in AfterAll(store, runs) && ProofBacked(AfterAll(store, runs)[k])
  {
    if runs != [] {
      hide FaithfulReads, ProofBacked, After;
      var r := runs[|runs| - 1];
      assert r in runs;
      NeverDowngradedEver(store, runs[..|runs| - 1], k);
      NeverDowngraded(r.env, AfterAll(store, runs[..|runs| - 1]), r.nodes, r.current, r.height, k);
    }
  }

  /** What is to be sealed now is not backed by readings. */
  ghost predicate SealsLess(env: Env, n: Node, season: int, height: int) {
    var payload := PayloadFor(env, n, season, height);
    payload.Some? && !ProofBacked(Record(SignAttest(env.w, payload.value, env.seed)))
  }

  /** A failed read looks like an empty store and gets past the guard: a proof-backed record is lost exactly
      when its read fails while there is something weaker to seal. */
  lemma DowngradedExactlyWhen(env: Env, store: Store, n: Node, season: int, height: int)
    requires KeyFor(n.id, season) in store && ProofBacked(store[KeyFor(n.id, season)])
    ensures var after := ApplyAll(store, SeasonChanges(env, store, n, season, height));
            && KeyFor(n.id, season) in after
            && (!ProofBacked(after[KeyFor(n.id, season)]) <==>
                  env.readFails(n.id, season) && SealsLess(env, n, season, height))
  {}

  // Converging.

  /** Every Tree and season has its own key. */
  ghost predicate DistinctNodes(nodes: seq<Node>) {
    forall i, j :: 0 <= i < j < |nodes| ==> Upper(nodes[i].id) != Upper(nodes[j].id)
  }

  /** What one Tree and season leaves at its key. */
  ghost function Sealed(env: Env, store: Store, n: Node, season: int, height: int): Option<Stored> {
    var payload := PayloadFor(env, n, season, height);
    var existing := Get(store, KeyFor(n.id, season));
    if payload.Some? && Writes(env, payload.value, existing)
    then Some(Record(SignAttest(env.w, payload.value, env.seed))) else existing
  }

  lemma SeasonSeals(env: Env, store: Store, n: Node, season: int, height: int, s: Store, k: Key)
    requires FaithfulReads(env) && Get(s, KeyFor(n.id, season)) == Get(store, KeyFor(n.id, season))
    ensures Get(ApplyAll(s, SeasonChanges(env, store, n, season, height)), k) ==
            if k == KeyFor(n.id, season) then Sealed(env, store, n, season, height) else Get(s, k)
  {
    hide PayloadFor, Writes;
    var changes := SeasonChanges(env, store, n, season, height);
    if changes != [] {
      var insert := changes[|changes| - 1];
      assert changes == [insert] || changes == [Delete(insert.key), insert];
      ApplyOne(s, insert);
      ApplyTwo(s, Delete(insert.key), insert);
    }
  }

  lemma {:induction false} NodeSeals(env: Env, store: Store, n: Node, current: int, height: int, s: Store, k: Key)
    requires FaithfulReads(env)
    requires forall season :: n.first <= season < current ==>
               Get(s, KeyFor(n.id, season)) == Get(store, KeyFor(n.id, season))
    ensures Get(ApplyAll(s, NodeChanges(env, store, n, current, height)), k) ==
            if k.0 == Upper(n.id) && n.first <= k.1 < current then Sealed(env, store, n, k.1, height) else Get(s, k)
    decreases current - n.first
  {
    hide SeasonChanges, Sealed, Get, FaithfulReads;
    if current > n.first {
      var front := NodeChanges(env, store, n, current - 1, height);
      NodeSeals(env, store, n, current - 1, height, s, k);
      NodeSeals(env, store, n, current - 1, height, s, KeyFor(n.id, current - 1));
      SeasonSeals(env, store, n, current - 1, height, ApplyAll(s, front), k);
      ApplyAppend(s, front, SeasonChanges(env, store, n, current - 1, height));
    }
  }

  lemma {:induction false} RunSeals(env: Env, store: Store, nodes: seq<Node>, current: int, height: int, k: Key)
    requires FaithfulReads(env) && DistinctNodes(nodes)
    ensures (forall i :: 0 <= i < |nodes| ==> Upper(nodes[i].id) != k.0) ==>
              Get(After(env, store, nodes, current, height), k) == Get(store, k)
    ensures forall i :: 0 <= i < |nodes| && Upper(nodes[i].id) == k.0 && nodes[i].first <= k.1 < current ==>
              Get(After(env, store, nodes, current, height), k) == Sealed(env, store, nodes[i], k.1, height)
  {
    hide NodeChanges, Sealed, Get, FaithfulReads;
    if nodes != [] {
      var m := |nodes| - 1;
      var front, n := nodes[..m], nodes[m];
      RunSeals(env, store, front, current, height, k);
      forall season | n.first <= season < current
        ensures Get(After(env, store, front, current, height), KeyFor(n.id, season)) == Get(store, KeyFor(n.id, season))
      {
        RunSeals(env, store, front, current, height, KeyFor(n.id, season));
      }
      NodeSeals(env, store, n, current, height, After(env, store, front, current, height), k);
      ApplyAppend(store, RunChanges(env, store, front, current, height), NodeChanges(env, store, n, current, height));
    }
  }

  lemma SignatureKeepsHeight(env: Env, b: AttestBody, h: int)
    ensures SignAttest(env.w, b, env.seed).body == b
    ensures AtHeight(AtHeight(b, Some(h)), b.blockHeight) == b
    ensures Basis(AtHeight(b, Some(h)), NoVersion) == Basis(b, NoVersion)
  {}

  /** Once decided, always decided: the record a run leaves is written by no later run, at any height. */
  lemma DecisionIsStable(env: Env, b: AttestBody, h: int, h': int, existing: Option<Stored>)
    requires b.blockHeight == Some(h)
    ensures var left := if Writes(env, b, existing) then Some(Record(SignAttest(env.w, b, env.seed))) else existing;
            !Writes(env, AtHeight(b, Some(h')), left)
  {
    SignatureKeepsHeight(env, b, h');
    assert AtHeight(AtHeight(b, Some(h')), Some(h)) == b;
    assert forall x :: AtHeight(AtHeight(b, Some(h')), x) == AtHeight(b, x);
    hide Basis;
  }

  lemma NothingToSeal(env: Env, store: Store, n: Node, season: int, height: int, again: int, after: Store)
    requires FaithfulReads(env) && Get(after, KeyFor(n.id, season)) == Sealed(env, store, n, season, height)
    ensures SeasonChanges(env, after, n, season, again) == []
  {
    PayloadAtHeight(env, n, season, height, again);
    var payload := PayloadFor(env, n, season, height);
    if payload.Some? {
      PayloadHasHeight(env, n, season, height);
      hide PayloadFor, Writes;
      DecisionIsStable(env, payload.value, height, again, Get(store, KeyFor(n.id, season)));
    }
  }

  lemma PayloadHasHeight(env: Env, n: Node, season: int, height: int)
    ensures PayloadFor(env, n, season, height).Some? ==>
              PayloadFor(env, n, season, height).value.blockHeight == Some(height)
  {
    hide SealOf;
  }

  lemma {:induction false} NodeIsQuiet(env: Env, after: Store, n: Node, current: int, again: int)
    requires forall season :: n.first <= season < current ==> SeasonChanges(env, after, n, season, again) == []
    ensures NodeChanges(env, after, n, current, again) == []
    decreases current - n.first
  {
    hide SeasonChanges;
    if current > n.first { NodeIsQuiet(env, after, n, current - 1, again); }
  }

  lemma {:induction false} RunIsQuiet(env: Env, after: Store, nodes: seq<Node>, current: int, again: int)
    requires forall i :: 0 <= i < |nodes| ==> NodeChanges(env, after, nodes[i], current, again) == []
    ensures RunChanges(env, after, nodes, current, again) == []
  {
    hide NodeChanges;
    if nodes != [] { RunIsQuiet(env, after, nodes[..|nodes| - 1], current, again); }
  }

  /** With the oracle's data and the readings unchanged, a second run has nothing to write, at any height. */
  lemma SecondRunIsEmpty(env: Env, store: Store, nodes: seq<Node>, current: int, height: int, again: int)
    requires FaithfulReads(env) && DistinctNodes(nodes)
    ensures RunChanges(env, After(env, store, nodes, current, height), nodes, current, again) == []
  {
    var after := After(env, store, nodes, current, height);
    hide SeasonChanges, NodeChanges, Sealed, Get, FaithfulReads, After;
    forall i | 0 <= i < |nodes| ensures NodeChanges(env, after, nodes[i], current, again) == [] {
      var n := nodes[i];
      forall season | n.first <= season < current ensures SeasonChanges(env, after, n, season, again) == [] {
        RunSeals(env, store, nodes, current, height, KeyFor(n.id, season));
        NothingToSeal(env, store, n, season, height, again, after);
      }
      NodeIsQuiet(env, after, n, current, again);
    }
    RunIsQuiet(env, after, nodes, current, again);
  }
}

/** Sealing a season from its published hours (orchard_chia/datalayer/seal.py). */
module Seal {
  import opened Ordering
  import opened Merkle
  import opened Schema

  datatype SealInputs = SealInputs(seasonRoot: Digest, verifiedHours: nat, minReadings: int,
                                   readingCount: nat, hourCount: nat, rootMismatches: nat, sigsVerified: bool)

  function ReadingTotal(records: seq<HourRecord>): nat {
    if records == [] then 0
    else
      var rec := records[|records| - 1];
      ReadingTotal(records[..|records| - 1]) + if rec.hour.Some? then |rec.readings| else 0
  }

  /** A stored root that is present and differs from the recomputed one. */
  predicate Mismatched(w: World, rec: HourRecord) {
    rec.hour.Some? && rec.hourRoot != NoRoot && rec.hourRoot != Root(HourRoot(w, rec.readings))
  }

  function Mismatches(w: World, records: seq<HourRecord>): nat {
    if records == [] then 0
    else Mismatches(w, records[..|records| - 1]) + if Mismatched(w, records[|records| - 1]) then 1 else 0
  }

  /** What is sealed for a list of records; None when none of them has an hour. */
  ghost function SealOf(w: World, records: seq<HourRecord>, pub: Option<PubKey>, min: int, window: Window)
    : Option<SealInputs>
  {
    var hours := ByHour(records);
    if hours == map[] then None
    else Some(SealInputs(SeasonRoot(w, HourRoots(w, hours)), |GoodHours(w, hours, pub, min, window)|, min,
                         ReadingTotal(records), |hours|, Mismatches(w, records), pub.Some?))
  }

  datatype SealError = QuorumBelowOne

  /** The roots that are sealed are recomputed, never the stored ones. A quorum below one is an error, but only
      when there are hours to count and a public key to count them with. */
  method SealFromReadings(w: World, records: seq<HourRecord>, pub: Option<PubKey>, min: int, window: Window)
    returns (s: Result<Option<SealInputs>, SealError>)
    ensures s.Err? <==> min < 1 && pub.Some? && ByHour(records) != map[]
    ensures s.Ok? ==> s.value == SealOf(w, records, pub, min, window)
  {
    var byHour, hourRoots, readingCount, mismatches := CollectHours(w, records);
    assert byHour.Keys == hourRoots.Keys && |byHour.Keys| == |byHour| && |hourRoots.Keys| == |hourRoots|;
    if |hourRoots| == 0 {
      return Ok(None);
    }
    hide ByHour, SeasonRoot, HourRoots;
    var seasonRoot := ComputeSeasonRoot(w, hourRoots);
    if pub.Some? && min < 1 { return Err(QuorumBelowOne); }
    var verified := CountHours(w, byHour, pub, min, window);
    return Ok(Some(SealInputs(seasonRoot, verified, min, readingCount, |hourRoots|, mismatches, pub.Some?)));
  }

  lemma HourRootsUpdate(w: World, hours: Hours, h: int, rs: seq<Reading>)
    ensures HourRoots(w, hours[h := rs]) == HourRoots(w, hours)[h := HourRoot(w, rs)]
  {
    hide HourRoot;
  }

  method CollectHours(w: World, records: seq<HourRecord>)
    returns (byHour: Hours, hourRoots: map<int, Digest>, readingCount: nat, mismatches: nat)
    ensures byHour == ByHour(records) && hourRoots == HourRoots(w, byHour)
    ensures readingCount == ReadingTotal(records) && mismatches == Mismatches(w, records)
  {
    byHour, hourRoots, readingCount, mismatches := map[], map[], 0, 0;
    for i := 0 to |records|
      invariant byHour == ByHour(records[..i]) && hourRoots == HourRoots(w, byHour)
      invariant readingCount == ReadingTotal(records[..i])
      invariant mismatches == Mismatches(w, records[..i])
    {
      var rec := records[i];
      assert records[..i + 1][..i] == records[..i];
      hide HourRoot, HourRoots;
      if rec.hour.Some? {
        var root := ComputeHourRoot(w, rec.readings);
        if rec.hourRoot != NoRoot && rec.hourRoot != Root(root) {
          mismatches := mismatches + 1;
        }
        HourRootsUpdate(w, byHour, rec.hour.value, rec.readings);
        hourRoots := hourRoots[rec.hour.value := root];
        byHour := byHour[rec.hour.value := rec.readings];
        readingCount := readingCount + |rec.readings|;
      }
    }
    assert records[..|records|] == records;
  }

  /** The signed record for a seal: what the writer publishes under `attest:`. */
  function SealedAttest(w: World, s: SealInputs, nodeId: string, season: int, start: string, end: string,
                        hoursOnline: int, blockHeight: int, signedAt: string, seed: Seed): Attest
  {
    var body := BuildAttest(nodeId, season, start, end, hoursOnline, s.verifiedHours, s.readingCount, blockHeight,
                            s.seasonRoot, signedAt, SEAL_READINGS, s.sigsVerified, s.rootMismatches, s.minReadings);
    SignAttest(w, body, seed)
  }
}

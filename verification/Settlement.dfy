/** From an observation to a settled day (orchard_chia/economics/settlement.py). */
module Settlement {
  import opened Ordering
  import opened Rewards
  import Emission

  /** What the oracle says about a Tree. `sensors` are the declared names, in any number. */
  datatype Observation = Observation(tree: string, wallet: Option<string>, sensors: seq<string>, hours: int,
                                     eligible: bool, reason: Option<string>)

  function Clamped(hours: int): nat {
    if hours < 0 then 0 else if hours > HEARTBEATS_PER_DAY then HEARTBEATS_PER_DAY else hours
  }

  function Named(sensors: seq<string>): set<string> { set s | s in sensors && s != "" }

  function TreeDayFromObservation(o: Observation): TreeDay {
    var wallet := if o.wallet.Some? then o.wallet.value else "";
    var blind := o.eligible && wallet == "";
    var reason :=
      if blind && (o.reason.None? || o.reason.value == "") then Some("no wallet_address visible") else o.reason;
    TreeDay(Upper(o.tree), wallet, |Named(o.sensors)|, Clamped(o.hours), o.eligible && !blind, reason, "oracle-hours")
  }

  /** Whatever the oracle reports of a named Tree, the reward calculation accepts it. */
  lemma EveryObservationIsAccepted(o: Observation)
    requires o.tree != ""
    ensures WellFormed(TreeDayFromObservation(o)) && TreeDayFromObservation(o).sensors >= 0
  {
    assert |Upper(o.tree)| == |o.tree|;
  }

  /** What reaches the reward rule: the Tree's name in capitals, its own wallet, every name of a sensor once, hours
      within a day as they were told and others cut to it, and eligibility unless there is no wallet to pay. */
  lemma ObservationIsKept(o: Observation)
    ensures var t := TreeDayFromObservation(o);
            && t.tree == Upper(o.tree) && t.basis == "oracle-hours"
            && (0 <= o.hours <= 24 ==> t.heartbeats == o.hours)
            && (o.hours < 0 ==> t.heartbeats == 0) && (o.hours > 24 ==> t.heartbeats == 24)
            && (o.wallet.Some? ==> t.wallet == o.wallet.value) && (o.wallet.None? ==> t.wallet == "")
            && (t.eligible <==> o.eligible && t.wallet != "")
            && (o.eligible && !t.eligible ==> t.reason.Some? && t.reason.value != "")
            && (o.eligible == t.eligible ==> t.reason == o.reason)
  {}

  /** Declaring a sensor counts once, however often; a nameless one never counts. */
  lemma SensorsCountOnce(o: Observation, sensor: string)
    ensures var before, after := TreeDayFromObservation(o),
                                 TreeDayFromObservation(o.(sensors := o.sensors + [sensor]));
            after == before.(sensors := before.sensors + if sensor == "" || sensor in o.sensors then 0 else 1)
    ensures TreeDayFromObservation(o.(sensors := [])).sensors == 0
  {
    var more := Named(o.sensors + [sensor]);
    if sensor == "" || sensor in o.sensors {
      assert more == Named(o.sensors);
    } else {
      assert more == Named(o.sensors) + {sensor};
    }
  }

  datatype SettlementError = Emission(e: Emission.EmissionError) | Reward(r: RewardError)

  datatype Settled = Settled(day: int, ceiling: Emission.DailyCeiling, rewards: DailyRewards, opening: int,
                             closing: int)

  function SettleDay(trees: seq<Tree>, day: int, pool: int): Result<Settled, SettlementError> {
    match Emission.DailyCeilingMojos(day, pool)
    case Err(e) => Err(Emission(e))
    case Ok(ceiling) =>
      match Daily(trees, ceiling.ceiling)
      case Err(e) => Err(Reward(e))
      case Ok(rewards) =>
        match Emission.ApplyDistribution(pool, ceiling, Distributed(rewards.rewards))
        case Err(e) => Err(Emission(e))
        case Ok(state) => Ok(Settled(day, ceiling, rewards, state.opening, state.closing))
  }

  /** A day settles exactly when it is not before genesis, the pool is not negative and no eligible
      Tree has a negative sensor count; it then distributes no more than its ceiling and its pool. */
  lemma DaySettles(trees: seq<Tree>, day: int, pool: int)
    ensures SettleDay(trees, day, pool).Ok? <==> day >= 0 && pool >= 0 && !SomeNegative(trees)
    ensures SettleDay(trees, day, pool).Ok? ==>
              var s := SettleDay(trees, day, pool).value;
              var paid := Distributed(s.rewards.rewards);
              && s.day == day && s.opening == pool && s.closing == pool - paid
              && 0 <= paid <= s.ceiling.ceiling == s.rewards.ceiling
              && s.ceiling.ceiling <= Emission.Scheduled(day) && s.ceiling.ceiling <= pool
              && (s.ceiling.ceiling == Emission.Scheduled(day) || s.ceiling.ceiling == pool)
              && (s.ceiling.limited <==> pool < Emission.Scheduled(day))
  {
    if day >= 0 && pool >= 0 {
      Emission.CeilingIsTheSmaller(day, pool);
      var ceiling := Emission.DailyCeilingMojos(day, pool).value;
      hide Emission.Scheduled, Emission.DailyCeilingMojos, Weighted, TotalWeight, Distributed, SomeNegative;
      DistributedWithinCeiling(trees, ceiling.ceiling);
    }
  }
}

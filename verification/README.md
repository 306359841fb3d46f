# The Orchard: a verified model

The Orchard pays small weather stations ("Trees") in a token. Trees publish signed readings to a
Chia DataLayer store; a writer seals each season into a Merkle-rooted, signed record; anyone can
check a season without trusting the writer; a ledger settles each day against a fixed emission
schedule; and a payer sends the settled amounts through a wallet it cannot roll back. This project
models the parts of that system that decide money or proof, and proves what they promise.

| modules | source |
|---|---|
| `Audit`, `Planner`, `Executor`, `Payment`, `PaymentSafety`, `PaymentHistory`, `PaymentTheorems`, `PaymentCaps`, `HiddenAcceptance`, `Resumption`, `StuckDay`, `PlanDetails`, `PayOutcome` | the pay path: store, plan, send, mark paid, over every sequence of crashing runs; the caps and answers its promises need; what re-running can still do; which day is paid and what the exit codes say |
| `AllocationRuns`, `AllocationBudget`, `RunLock`, `AllocationCaps`, `OneDebt` | allocation cycles by interleaved processes under the run lock, and the limits their promises need |
| `Merkle`, `Schema`, `SeasonShape`, `Seal`, `Verify`, `Payout`, `Agreement`, `HourEvidence`, `ValidBundle` | hour and season roots and what they bind, the sealing writer, the independent verifier, and what is paid |
| `Changelist`, `AttestWriter`, `WriterAgreement`, `Publish`, `PublishContents`, `PublishSafety` | what the two DataLayer writers change in the store, what that says, and that the verifier accepts it |
| `Apportionment`, `Allocation`, `AllocationDetails` | largest-remainder apportionment of a budget |
| `Rewards`, `RewardInvariance`, `Emission`, `Settlement`, `Ledger`, `LedgerSafety`, `Runway`, `SettleAll`, `OwedWallets`, `Exhaustion`, `MoreTrees`, `RewardDetails` | daily rewards, the eight-year schedule, and the pool ledger |
| `Polymod`, `Regrouping`, `Bech32m`, `Spelling`, `Clvm`, `SignedMessage`, `WalletAuth` | bech32m addresses, curry hashing, signed messages, wallet signatures |
| `RateLimiter` | the swept sliding-window limiter |
| `Ordering`, `Sums` | sorting and sums used throughout |

Objects the program updates in place are classes (`PayHost`, `PoolLedger`, `RunLock`,
`FixedWindowLimiter`), and its loops are methods; each is proved equal to a specification function,
and the theorems are about that function. A crash is a prefix of the list of a run's durable effects.
Python's `Fraction` is `real`. SHA-256, ECDSA, BLS, canonical JSON and date parsing are parameters;
nothing is assumed of SHA-256: where a claim needs collision resistance, the lemma hands back two
different byte strings with one hash.

## What the theorems rest on

- An ordinary exception from the wallet RPC means the wallet did not accept the spend. That is exactly what paying
  once needs (`HiddenAcceptance.PaysOnceIffNothingIsHidden`). An accepted spend has a non-empty transaction id, and an
  operator who settles a row left `sending` does so truthfully. Genesis and asset id do not change, and `pay`
  runs are not concurrent.
- Per-wallet caps are not negative. Live runs insist on that, dry runs do not; `PaymentCaps` and
  `AllocationCaps` prove that the promises hold for exactly these caps.
- For interleaved allocation processes: lock breaking is off, or the system refuses to delete a living
  holder's file; that is exactly when processes exclude each other (`RunLock.MutualExclusionIff`). The operator
  removes a lock file only when no process is inside a run.
- The list of Trees given to the season writer names no Tree twice, in whatever case.
- Cycle ids and store keys are injective in their parts. Signatures made with a key verify under it. A clock
  reading is never the empty string.

## Where the code does less than its comments say

- The executor's comment says an ambiguous send is never retried, but a timeout is retried like any
  other exception (`orchard_chia/allocation/executor.py:196-210`): `PaymentTheorems.RetryIsSafeIff`.
- The already-sent branch overwrites a sent row with `skipped`. After a dry run with a negative cap a live
  run gets there, a later one sends the money again, and the day can be marked paid with a skipped row:
  `PaymentCaps.PaidTwice`, `AllocationCaps.PaidTwice`.
- With lock breaking on, two processes can break one stale lock wherever open files can be deleted
  (`RunLock.MutualExclusionIff`).
- `is_exhausted` says nothing can be paid whenever the pool is smaller than the number of Trees; with
  mixed sensor weights that begins only at four fifths of a mojo per Tree
  (`Exhaustion.NothingPayableExactlyWhen`, `Exhaustion.ExhaustedTooSoon`).
- "More Trees never raise the total" is true of the ceiling. What is distributed can rise, by at most the new
  Tree's own reward, unless that Tree does not count or has no heartbeats (`MoreTrees.HarmlessTreeIff`). "More
  sensors never raise the total" fails in the same way (`MoreTrees.HarmlessSensorsIff`).
- `status` promises its runway whatever is behind. Seasons closed and not settled come out of the same pool, so the
  runway holds only while the pool covers them as well (`Runway.RunwayHoldsExactlyWhen`,
  `Runway.BacklogOutrunsTheRunway`).
- `settle --all` speaks of every unsettled closed season, and starts after the last settled one. A season skipped by
  settling a later one is never settled, and the command still ends well (`SettleAll.Run`,
  `SettleAll.TenthThenAll`).
- "Re-running a crashed payment resumes it" only until something is sent. From the first sent row on, no run sends
  anything more for the day; it can be completed only if the wallet has accepted everything already
  (`Resumption.DayCompletesIff`, `StuckDay.NothingCompletesTheDay`).
- "An hour of near-silence cannot be sold as an hour of sensing" does not follow from the quorum: readings are
  counted, repeats and all, and nothing ties an hour to their timestamps
  (`HourEvidence.OneReadingManyHours`, `HourEvidence.VerifiedHoursAreBacked`).
- A record without a verification basis is paid the verified hours it claims, although "nothing unprovable is paid",
  and leaving the basis out makes a placeholder that claims hours worth more (`Agreement.PaidWhateverItsBasis`).
- Addresses are not spelled one way: the decoder drops left-over bits without looking at them, against BIP-350
  (`Spelling.OwnSpellingIff`, `Spelling.EveryAddressHasAnotherSpelling`).
- A season root fixes the sequence of readings and the way the hours' sizes split, not the hours themselves
  (`SeasonShape.SameRootIff`).
- A signed payload belongs to the bytes of a message, and a message that reads as hex is signed as the bytes it
  spells, so every message but the empty one shares its payload with another
  (`SignedMessage.OnlyTheEmptyMessageStandsAlone`).
- An hour root depends on the order of arrival of different readings with one time and one signature
  (`Schema.ArrivalOrderIsForgottenIff`).
- The sealer's downgrade guard does not protect a record whose read failed
  (`AttestWriter.DowngradedExactlyWhen`).
- Publishing the same hours again is empty only if every card carried is the one its node ended up with and no
  hour waited for a card of the same run (`PublishSafety.ReplanIsEmptyIff`).

## Model

| member | source | states |
|---|---|---|
| `Audit.PayHost.Commit` | orchard_chia/allocation/audit.py:174-257 | One committed statement changes exactly the row or cycle it names; an update of a missing row and an insert over an existing row change nothing |
| `Audit.PayHost.Send` | orchard_chia/allocation/executor.py:121-134 | The spend RPC: the wallet accepts the spend or not, whatever the caller gets to see |
| `Audit.PayHost.MarkPaid` | orchard_chia/economics/payment.py:79-86 | Marking a day changes the ledger only if the day is there |
| `Audit.PayHost.TotalSentMojos` | orchard_chia/allocation/audit.py:284-290 | The loop's total is the sum over the cycle's rows that are sent or mid-send |
| `Audit.SumIsPositive` | orchard_chia/allocation/planner.py:126-147 | With positive amounts the already-sent rule fires exactly when some row of the cycle is sent or mid-send |
| `Audit.OneCycleExactlyWhen` | orchard_chia/allocation/audit.py:108-123 | Two payments are one cycle if and only if they are of one period, one budget and one asset, in any spelling of its case |
| `Planner.MakePlan` | orchard_chia/allocation/planner.py:100-205 | The plan is the specified one: instructions, dropped amounts and every reason to refuse, in order |
| `Planner.CheckStore` | orchard_chia/allocation/planner.py:121-147 | The refusals that depend on the store: paused, a row mid-send anywhere, the cycle already sent |
| `Planner.ApplyWalletRules` | orchard_chia/allocation/planner.py:149-178 | Zero, dust and cap rules for every wallet, and the total of what is left |
| `Planner.NothingIsLost` | orchard_chia/allocation/planner.py:149-176 | Conservation: what is to be sent and what is dropped add up to what was allocated, for all inputs |
| `Planner.UnblockedPlan` | orchard_chia/allocation/planner.py:121-192 | A plan may run if and only if it is not paused, nothing is mid-send, nothing of the cycle was sent, and cap and balance cover its total and fees |
| `PlanDetails.InstructionsDescribe` | orchard_chia/allocation/planner.py:149-178 | A wallet has an instruction if and only if its allocation is something and not dust, and for the smaller of it and the cap |
| `PlanDetails.DropsDescribe` | orchard_chia/allocation/planner.py:149-178 | Every amount withheld is listed, with its own reason: nothing allocated, dust, or what exceeds the cap |
| `PlanDetails.BlocksDescribe` | orchard_chia/allocation/planner.py:121-192 | Each of the five refusals is given if and only if its own cause is there |
| `Planner.Persist` | orchard_chia/allocation/planner.py:208-226 | Persisting performs exactly the listed writes, in order, and sends nothing |
| `Executor.MarkAndSend` | orchard_chia/allocation/executor.py:186-191 | The row is marked `sending` before the wallet is called |
| `Executor.TryLoop` | orchard_chia/allocation/executor.py:184-220 | The retry loop performs exactly the specified effects: retry after an ordinary exception, stop at an unknown outcome |
| `Executor.SendInstruction` | orchard_chia/allocation/executor.py:176-220 | One instruction: skipped if already sent, else tried, and marked failed only when every attempt was refused |
| `Executor.Execute` | orchard_chia/allocation/executor.py:144-228 | The whole execution performs the specified effects in order, halts at the first unknown outcome, and reports what happened |
| `Payment.CollectOwed` | orchard_chia/economics/payment.py:115-134 | The dictionary of debts: each wallet is owed the sum of its rows of the day |
| `Payment.PlanDayPayment` | orchard_chia/economics/payment.py:88-162 | A day is refused, without writing, exactly when it is unsettled, already paid or owes nothing; otherwise the day's plan is persisted |
| `Payment.OldestUnpaid` | orchard_chia/economics/payment.py:70-77 | The day chosen by default is the earliest settled, unpaid day with something distributed |
| `Payment.Pay` | orchard_chia/economics/runner.py:538-648 | The whole command: its durable effects, in order, and its exit code are the specified ones |
| `Payment.PayOneDay` | orchard_chia/economics/runner.py:594-648 | Plan, heal after a crash, send and mark paid, for one day |
| `PayOutcome.DefaultDayIsOldest` | orchard_chia/economics/payment.py:70-77 | Told no day, the command does what it does when told the oldest settled, unpaid day with something to pay; days of nothing are passed over and it is never refused |
| `PayOutcome.RefusedExactlyWhen` | orchard_chia/economics/runner.py:538-604 | The command exits with 2 if and only if its arguments are refused or the day named has nothing to pay; then it changes nothing |
| `PayOutcome.DryRunSendsNothing` | orchard_chia/economics/runner.py:572-625 | A dry run asks the wallet neither for its balance nor to send, and ends well unless refused |
| `PayOutcome.ExitTellsPaid` | orchard_chia/economics/runner.py:594-648 | A live run of a day exits with 0 if and only if the day is marked paid afterwards, with 3 if and only if nothing is, and marks no other day |
| `PayOutcome.CooperativeWalletPays` | orchard_chia/economics/runner.py:594-648 | Liveness: a day with something to pay, an unblocked plan and a wallet that says what became of every spend and accepts one of any three tries end in a paid day |
| `PaymentSafety.RowChange` | orchard_chia/allocation/audit.py:228-256 | Marking a row `sending`, `failed` or `sent` keeps the invariant when the wallet agrees with the mark |
| `PaymentSafety.MoveStep` | orchard_chia/allocation/executor.py:189-191 | An accepted spend keeps the invariant when its row is `sending` and it is the first for its key |
| `PaymentSafety.BookStep` | orchard_chia/allocation/planner.py:208-226 | Opening a cycle and adding rows keeps the invariant |
| `PaymentHistory.SendOneOk` | orchard_chia/allocation/executor.py:176-220 | Every prefix of sending one instruction keeps the invariant, touches no other row, and a reported success is on record |
| `PaymentHistory.UnblockedIsUntouched` | orchard_chia/allocation/planner.py:126-147 | An unblocked plan finds its cycle untouched: no row sent or mid-send, no spend ever accepted |
| `PaymentHistory.LiveRunOk` | orchard_chia/allocation/executor.py:144-228 | Every prefix of a live run keeps the invariant; a clean report means every wallet of the day was sent |
| `PaymentHistory.HealOk` | orchard_chia/economics/runner.py:605-621 | When every row of the cycle reads sent, every wallet the day owes has been sent, so healing may mark it paid |
| `PaymentTheorems.AtMostOncePerDayAndWallet` | orchard_chia/allocation/executor.py:144-228 | Over every history of settlements, crashing runs and operator fixes, the wallet accepts at most one spend per day and wallet, and its row is `sending` or `sent` |
| `PaymentTheorems.OnePlanPerDay` | orchard_chia/allocation/planner.py:121-192 | All accepted spends of a day come from one run and together exceed neither that run's per-cycle cap nor what the day distributed |
| `PaymentTheorems.MovedOfCycle` | orchard_chia/economics/payment.py:88-162 | The accepted spends of a cycle sum to min(owed, cap) over the wallets they went to |
| `PaymentTheorems.PaidMeansPaid` | orchard_chia/economics/runner.py:594-648 | A day is marked paid, normally or by healing, only if every row of its cycle is sent with a transaction id; the wallet then moved the sum over the day's wallets of min(owed, cap) |
| `PaymentTheorems.UnblockedNeverSkips` | orchard_chia/allocation/executor.py:176-182 | After any history, a live run with an unblocked plan never takes the branch that overwrites a sent row |
| `PaymentTheorems.RetryIsSafeIff` | orchard_chia/allocation/executor.py:184-220 | An instruction moves money at most once if and only if no exception hid an acceptance that a later attempt repeats |
| `PaymentTheorems.RetryIsSafeForEveryWalletIff` | orchard_chia/allocation/executor.py:184-220 | No wallet can make an instruction move money twice if and only if at most one attempt is made |
| `HiddenAcceptance.PaysOnceIffNothingIsHidden` | orchard_chia/allocation/executor.py:184-220 | For every k: all otherwise trusted histories in which at most k runs see an exception that hides an acceptance pay each wallet at most once a day, if and only if k is zero |
| `HiddenAcceptance.PaidAgainAfterFailure` | orchard_chia/allocation/executor.py:184-220 | Two runs, in neither of which an instruction is retried after an acceptance, send a wallet its debt twice when the last exception of the first hid one |
| `Resumption.RerunsCompleteIff` | orchard_chia/economics/runner.py:594-648 | After any trusted history, pay runs can complete a day that has a sent row if and only if all its wallets read sent |
| `Resumption.DayCompletesIff` | orchard_chia/economics/runner.py:594-648 | Whatever runs, settlements and operator look-ups follow, such a day can be completed if and only if the wallet has accepted the spend of every wallet owed: nothing more is sent for it |
| `StuckDay.NothingCompletesTheDay` | orchard_chia/economics/runner.py:594-648 | A live run that dies between two wallets leaves a day that nothing completes |
| `PaymentCaps.PaysOnceIffCapsAreNotNegative` | orchard_chia/economics/runner.py:572-648 | For every bound m: all otherwise trusted histories with caps at least m pay each wallet at most once a day, and each day from one run within its cap and what the day distributed, if and only if m is not negative |
| `PaymentCaps.PaidIsSentIffCapsAreNotNegative` | orchard_chia/economics/runner.py:594-648 | For every bound m: in all such histories a paid day has only sent rows and was paid min(owed, cap) to every wallet, if and only if m is not negative |
| `PaymentCaps.SkipsNothingIffCapsAreNotNegative` | orchard_chia/allocation/executor.py:176-182 | For every bound m: after all such histories an unblocked live run skips nothing, if and only if m is not negative |
| `PaymentCaps.PaidTwice` | orchard_chia/economics/runner.py:572-648 | A settled day, a dry run with any negative cap and three live runs, two of them cut short: the day's wallet is sent its debt twice |
| `AllocationRuns.EngineListsWalletsOnce` | orchard_chia/allocation/service.py:170-197 | Whatever uptime a run collects, the allocations it plans list every wallet once |
| `AllocationBudget.EngineStaysWithinBudget` | orchard_chia/allocation/service.py:170-197 | A run's allocations are not negative and add up to no more than its budget |
| `AllocationBudget.PlanStaysWithinBudget` | orchard_chia/allocation/planner.py:149-178 | Under any limits the plan of a run totals no more than the run's budget |
| `AllocationBudget.RunPlansByItsSettings` | orchard_chia/allocation/service.py:170-197 | A run plans by its own minimum payout, limits, fee and balance, a limit of zero being none |
| `AllocationBudget.RefusedRunsDoNothing` | orchard_chia/allocation/service.py:109-158 | A run does nothing if and only if its settings are refused |
| `AllocationBudget.CycleLimitNeverBlocks` | orchard_chia/allocation/service.py:109-197 | The limit per cycle never stands in the way of a run that is not refused |
| `RunLock.RunLock.Acquire` | orchard_chia/allocation/lock.py:87-137 | The lock is taken exactly when the file is absent or may be broken; with breaking off, exactly when it is absent; otherwise nothing changes |
| `RunLock.RunLock.Release` | orchard_chia/allocation/lock.py:139-149 | Releasing removes the file, whoever it belongs to |
| `RunLock.MutualExclusion` | orchard_chia/allocation/lock.py:87-149 | Where a living holder's lock cannot be taken, in every interleaving at most one process is inside a run, and the lock names it |
| `RunLock.MutualExclusionIff` | orchard_chia/allocation/lock.py:87-149 | At most one process is inside in every interleaving if and only if breaking is off or open files cannot be deleted; where they can be, if and only if breaking is off |
| `RunLock.HolderSeesItsOwnRun` | orchard_chia/allocation/service.py:153-167 | At any moment of its run a process finds the store as if it ran alone after the runs that are over |
| `RunLock.Serializable` | orchard_chia/allocation/service.py:153-197 | Every interleaving of processes and crashes leaves the store and wallet of some sequence of runs |
| `RunLock.EveryPastIsReached` | orchard_chia/allocation/service.py:153-197 | Conversely, every sequence of runs, each stopped anywhere, is the outcome of some interleaving |
| `RunLock.AtMostOncePerCycleAndWallet` | orchard_chia/allocation/service.py:153-197 | However processes interleave and crash, no cycle and wallet is paid twice and one run sent all of a cycle's spends |
| `RunLock.CycleStaysWithinItsBudget` | orchard_chia/allocation/service.py:170-197 | However processes interleave and crash, a cycle's accepted spends exceed neither its budget nor the per-cycle cap |
| `AllocationCaps.LimitsDecide` | orchard_chia/allocation/service.py:109-197 | For every bound m: in all interleavings of otherwise trusted runs with limits at least m no wallet is paid twice for a cycle and no cycle exceeds its budget, if and only if m is not negative |
| `AllocationCaps.PaidTwice` | orchard_chia/allocation/service.py:109-197 | A dry run with any negative limit and three live runs of one cycle send its wallet the allocation twice |
| `Merkle.SplitPointIsPowerOfTwo` | orchard_chia/datalayer/merkle.py:46-62 | The reference tree splits at a power of two below n and at least half of n, the largest one below n (section 2.1 of RFC 6962) |
| `Merkle.PairsKeepTreeHash` | orchard_chia/datalayer/merkle.py:46-62 | One pass of hashing pairs and promoting an odd tail leaves the top-down tree hash unchanged |
| `Merkle.MerkleRoot` | orchard_chia/datalayer/merkle.py:46-62 | For every list of leaves the bottom-up loop returns the top-down tree hash |
| `Merkle.ClimbLevel` | orchard_chia/datalayer/merkle.py:73-101 | One level of the proof loop: the next level, the sibling if there is one, and the parent's index |
| `Merkle.MerkleProof` | orchard_chia/datalayer/merkle.py:65-101 | A proof exists exactly for in-range indices and equals the top-down audit path (section 2.1.1 of RFC 6962) |
| `Merkle.VerifyProof` | orchard_chia/datalayer/merkle.py:104-110 | Accepts exactly when folding the path over the leaf gives the root |
| `Merkle.PathReachesRoot` | orchard_chia/datalayer/merkle.py:65-110 | Completeness: every in-range audit path leads from its leaf to the root |
| `Merkle.PathIsShort` | orchard_chia/datalayer/merkle.py:65-101 | A path over at most 2^d leaves has at most d steps |
| `Merkle.FoldAppend` | orchard_chia/datalayer/merkle.py:104-110 | Paths compose, so an hour path can be continued by a season path |
| `Merkle.AcceptedProofIsSound` | orchard_chia/datalayer/merkle.py:36-110 | Soundness: an accepted proof names an item of the list, or two different byte strings with one hash are handed back |
| `Merkle.EqualRootsBind` | orchard_chia/datalayer/merkle.py:36-62 | Equal roots come from equal trees, or a collision is handed back |
| `Schema.ComputeHourRoot` | orchard_chia/datalayer/schema.py:244-258 | The loop's hour root is the tree hash of the readings sorted by time and signature |
| `Schema.CommittedByTime` | orchard_chia/datalayer/schema.py:244-247 | Readings are committed by their time, a missing one counting as zero, and at one time by their signature |
| `Schema.ArrivalOrderIsForgottenIff` | orchard_chia/datalayer/schema.py:244-247 | The committed order does not depend on the order of arrival if and only if no two different readings have one time and one signature |
| `Schema.HourRootIgnoresArrival` | orchard_chia/datalayer/schema.py:244-258 | Without such ties, any order of arrival gives the same hour root |
| `Schema.ComputeSeasonRoot` | orchard_chia/datalayer/schema.py:260-268 | The season root is the tree hash of the hour roots in hour order |
| `Schema.SeasonRootBindsReadings` | orchard_chia/datalayer/schema.py:244-268 | Two seasons of non-empty hours with one root hold the same readings from left to right, or a collision is handed back |
| `SeasonShape.SameTreeIff` | orchard_chia/datalayer/schema.py:260-268 | Season trees of non-empty hours are equal if and only if the readings are, left to right, and the lists of hour sizes split alike |
| `SeasonShape.SameRootIff` | orchard_chia/datalayer/schema.py:260-268 | Two seasons share a root if and only if they share readings and split; otherwise a collision is handed back |
| `SeasonShape.AnyLabelWillDo` | orchard_chia/datalayer/schema.py:260-268 | The same readings under any other hour label have the same root |
| `Schema.SeasonRootForgetsHours` | orchard_chia/datalayer/schema.py:260-268 | For example, two readings in one hour and the same two in two hours have the same season root |
| `Schema.ReadingProvesAgainstSeason` | orchard_chia/datalayer/schema.py:249-268 | The hour path followed by the season path takes every reading to the season root |
| `Schema.CountHours` | orchard_chia/datalayer/schema.py:331-360 | The recount is the number of hours with at least the quorum of valid, in-window readings, repeats included |
| `HourEvidence.CountIsDifferentIff` | orchard_chia/datalayer/schema.py:354-360 | The readings counted for an hour are all different if and only if no qualifying one is there twice |
| `HourEvidence.VerifiedHoursAreBacked` | orchard_chia/datalayer/schema.py:331-360 | If no reading repeats inside an hour and each is filed under the hour of its own clock, the season holds a quorum of different readings for every verified hour |
| `HourEvidence.OneBatchManyHours` | orchard_chia/datalayer/schema.py:331-360 | One genuine batch published under any number of hours seals as a valid season with that many verified hours |
| `HourEvidence.OneReadingManyHours` | orchard_chia/datalayer/schema.py:280-360 | One genuine reading, copied to fill the quorum, does the same |
| `Schema.LastRecordSpeaks` | orchard_chia/datalayer/verify.py:195-197 | Of several records of one hour the last one given speaks for it |
| `Schema.ScoreIsNearest` | orchard_chia/datalayer/schema.py:476-481 | The season score is the nearest whole percentage of 24 hours, a half going up, and none for fewer than no hours |
| `Seal.SealFromReadings` | orchard_chia/datalayer/seal.py:44-111 | What is sealed is recomputed from the readings: root, verified hours, counts and mismatches; nothing published gives nothing, and a quorum below one is an error exactly when there are hours and a public key |
| `Seal.CollectHours` | orchard_chia/datalayer/seal.py:62-93 | The dictionaries and counters of the loop: the last record of each hour, its recomputed root, and how many stored roots disagree |
| `Verify.VerifyBundle` | orchard_chia/datalayer/verify.py:164-481 | Exactly the applicable checks are reported, each says what its name promises, and the report is valid if and only if the bundle is sound |
| `Verify.CheckRecordsAgree` | orchard_chia/datalayer/verify.py:210-232 | Every record and reading belongs to the claimed Tree and season |
| `Verify.ProveHour` | orchard_chia/datalayer/verify.py:369-387 | Proving every leaf of an hour by its audit path succeeds exactly when the stored root is the recomputed one |
| `Verify.VerifyReadingInHour` | orchard_chia/datalayer/verify.py:129-161 | The three answers about one reading: its signature, the hour's root, and membership in the hour's tree |
| `Verify.FoundReadingIsPublished` | orchard_chia/datalayer/verify.py:129-161 | A reading found in the hour's tree is one of the hour's readings, or a collision is handed back |
| `ValidBundle.ValidReadingsAreProven` | orchard_chia/datalayer/verify.py:164-481 | Soundness: in a valid bundle with readings, full or not, every reading verifies under the card's key, names a block, is of the one node and lies under its record's root, and every declaration is in order |
| `ValidBundle.ValidExactlyWhen` | orchard_chia/datalayer/verify.py:164-481 | A full bundle whose root is not the placeholder hash is valid if and only if it is of one node and season, declares what is supported, its readings are proven, and root, hours and score recompute |
| `ValidBundle.ValidWithoutReadings` | orchard_chia/datalayer/verify.py:285-345 | A valid bundle without readings declares no basis and carries the placeholder hash |
| `ValidBundle.CountIsOfPlaces` | orchard_chia/datalayer/schema.py:322-360 | What counts towards an hour is the number of places with a reading signed by the key and in the half-open window |
| `Agreement.SealedSeasonVerifies` | orchard_chia/datalayer/seal.py:44-111 | What the writer seals from any non-empty set of genuine hours, the verifier accepts in full |
| `Agreement.ValidBundleIsPaidItsRecount` | orchard_chia/payout/calculator.py:65-139 | A valid proof-backed bundle claims exactly the recount under its own quorum and window, and exactly that is paid |
| `Agreement.UndeclaredBundlePay` | orchard_chia/payout/calculator.py:65-139 | A valid bundle with no declared basis carries the placeholder hash as its root, or is paid its recount |
| `Agreement.LegacySeasonVerifies` | orchard_chia/datalayer/verify.py:255-305 | A record sealed before records declared a basis, a mismatch count or a quorum still verifies over genuine hours, with no basis, and is paid its recount or carries the placeholder hash |
| `Agreement.PaidWhateverItsBasis` | orchard_chia/payout/calculator.py:62-139 | By default a record is paid the verified hours it claims unless it calls itself a placeholder, whatever its basis; leaving the basis out changes the amount exactly for a placeholder that claims hours |
| `Payout.EveryCaseIsPaid` | orchard_chia/payout/calculator.py:65-139 | Every case of what a record is paid and what it is said to rest on, by its own fields |
| `Agreement.OneRootOneHistory` | orchard_chia/datalayer/verify.py:164-481 | Two valid bundles with one season root hold the same readings in order, or a collision is handed back |
| `AttestWriter.PayloadOf` | orchard_chia/datalayer/main.py:342-449 | Whether and what to sign for one Tree and season is the specified payload; WriterAgreement says what that claims |
| `WriterAgreement.SignedExactlyWhen` | orchard_chia/datalayer/main.py:342-415 | Something is signed if and only if the oracle answered, the readings were read, the season is not passed over for having no hours, and some hour was published or placeholders are asked for |
| `WriterAgreement.PayloadIsOfTheSeason` | orchard_chia/datalayer/main.py:433-452 | Node, season, period, claimed uptime, height and time of the payload are those of the season |
| `WriterAgreement.PayloadIsTheRecount` | orchard_chia/datalayer/main.py:374-397 | With published hours the payload claims the recount, root, readings and mismatches of the published records, whatever the oracle says of uptime |
| `WriterAgreement.PlaceholderClaimsNothing` | orchard_chia/datalayer/main.py:397-424 | Without them it is a consistent placeholder that claims nothing and is paid nothing |
| `WriterAgreement.NoMismatchExactlyWhen` | orchard_chia/datalayer/seal.py:58-81 | The signed count of mismatches is zero if and only if no stored root differs from the recomputed one |
| `WriterAgreement.RunVerifies` | orchard_chia/datalayer/main.py:240-518 | What a run of the sealer leaves in the store over genuine hours the verifier accepts in full, and it is paid the recount |
| `AttestWriter.SealSeason` | orchard_chia/datalayer/main.py:451-509 | The changes for one season: none if unchanged at the height on chain or if it would downgrade, else delete and insert |
| `AttestWriter.AttestBodyRun` | orchard_chia/datalayer/main.py:328-509 | The nested loops build exactly the specified changelist |
| `AttestWriter.NeverDowngraded` | orchard_chia/datalayer/main.py:487-509 | Through a run with faithful reads a proof-backed record stays in the store and stays proof-backed |
| `AttestWriter.NeverDowngradedEver` | orchard_chia/datalayer/main.py:328-518 | The same through any number of runs, whatever the oracle answers meanwhile |
| `AttestWriter.DowngradedExactlyWhen` | orchard_chia/datalayer/main.py:452-509 | A proof-backed record is lost if and only if its read fails while something weaker is to be sealed |
| `AttestWriter.DecisionIsStable` | orchard_chia/datalayer/main.py:469-485 | The record left by a decision, written or kept, is written by no later run at any height |
| `AttestWriter.SecondRunIsEmpty` | orchard_chia/datalayer/main.py:328-518 | Convergence: with unchanged data a second run at any block height has an empty changelist |
| `Changelist.InsertsFromChangelist` | orchard_chia/datalayer/confirm.py:113-130 | The loop keeps, for every key, the last insert not followed by a delete |
| `Changelist.InsertsAreTheContents` | orchard_chia/datalayer/confirm.py:113-130 | Applying a changelist leaves exactly the untouched part of the store and those inserts |
| `Publish.AppendUpsert` | orchard_chia/datalayer/publish.py:129-136 | Nothing if the value is there already, delete and insert if another is, insert if none is |
| `Publish.PlanPublish` | orchard_chia/datalayer/publish.py:139-264 | The loop builds the specified plan; PublishContents says what is published |
| `PublishContents.PublishesExactlyWhen` | orchard_chia/datalayer/publish.py:184-243 | An hour is published if and only if it is in 0..23, not published, not on chain, has a signed reading, and its device's key comes with it or is on chain; a skip names its cause |
| `PublishContents.InsertedHoursAreTheBatches` | orchard_chia/datalayer/publish.py:184-243 | Every inserted readings record is some such hour: exactly its signed readings, each as often as given, under the root they recompute to |
| `PublishContents.DueHoursAreInserted` | orchard_chia/datalayer/publish.py:184-243 | Every such hour is inserted |
| `PublishContents.LatestIsTheHour` | orchard_chia/datalayer/publish.py:245-262 | Of the hours published of one node, the latest record tells the last one given, with its last signed reading, unless a latest record of this very moment was there before and more than one hour is published |
| `PublishContents.CardIsAsGiven` | orchard_chia/datalayer/publish.py:204-219 | Where a plan's batches agree about a node, its card afterwards holds the key and details given, and the time first seen or now |
| `PublishContents.MetaIsAsGiven` | orchard_chia/datalayer/publish.py:69-101 | The store's own record names writer and key, and keeps its date exactly as long as they do not change |
| `PublishSafety.ReadingsAreAppendOnly` | orchard_chia/datalayer/publish.py:139-264 | No published hour is ever deleted, overwritten or inserted again; only new readings keys are inserted |
| `PublishSafety.HoursAreTheInserts` | orchard_chia/datalayer/publish.py:139-264 | The plan's list of hours is exactly what its changelist inserts, in order |
| `PublishSafety.InsertedHoursAreVerifiable` | orchard_chia/datalayer/publish.py:139-264 | Every hour published has its node's card in the store afterwards |
| `PublishSafety.ReplanIsEmptyIff` | orchard_chia/datalayer/publish.py:139-264 | Planning the same batches against the new store, at any clock, is empty if and only if every card carried is its node's final card and no hour without a key waited for a card this run brought |
| `PublishSafety.FinalCardIsThere` | orchard_chia/datalayer/publish.py:129-264 | The card a node has afterwards is the last one that differed from the card it had before the run |
| `PublishSafety.OneCardPerNode` | orchard_chia/datalayer/publish.py:139-264 | With one card per node, replanning is empty if and only if no card is dated by a clock that has moved |
| `PublishSafety.TwoCardsNeverSettle` | orchard_chia/datalayer/publish.py:139-264 | Two different cards for a node are written over each other by every run |
| `Allocation.WalletWeights` | orchard_chia/allocation/engine.py:136-159 | The weights the loops compute are the specified ones |
| `Allocation.WeightsDescribe` | orchard_chia/allocation/engine.py:136-159 | One weight for every wallet with an eligible record: the average of its eligible records |
| `Allocation.Allocate` | orchard_chia/allocation/engine.py:162-251 | The engine's result is the specified one, and its final assertion never fails |
| `Allocation.SplitLoop` | orchard_chia/allocation/engine.py:207-239 | Floors, claim order and the loop that hands out the left-over mojos |
| `Allocation.BumpsAreFair` | orchard_chia/allocation/engine.py:216-225 | The left-over mojos go to the claims with the largest fractions, one each |
| `Allocation.AllOrNothing` | orchard_chia/allocation/engine.py:162-251 | The amounts sum exactly to the budget when some eligible record has uptime, and to zero otherwise |
| `Allocation.QuotaRuleHolds` | orchard_chia/allocation/engine.py:162-251 | Every wallet gets its exact quota rounded down or up, and nothing at average zero |
| `Allocation.AveragesKeepTheirOrder` | orchard_chia/allocation/engine.py:162-251 | A larger average never gets less; equal averages differ by at most one mojo |
| `AllocationDetails.EqualAveragesGoByAddress` | orchard_chia/allocation/engine.py:219-242 | Wallets are listed by address, and of two with one average the earlier gets as much as the other or one mojo more |
| `AllocationDetails.EveryAllocationIsBacked` | orchard_chia/allocation/engine.py:136-160 | An allocation is of its wallet's eligible records, each as often as given: their number, pairs and mean uptime |
| `AllocationDetails.EveryRecordIsUsed` | orchard_chia/allocation/engine.py:162-251 | Every record is one of a wallet with an allocation, or among the excluded ones, by its eligibility |
| `Allocation.NoSplitIsCloser` | orchard_chia/allocation/engine.py:162-251 | No split of the budget into whole mojos has a smaller total absolute deviation from the quotas |
| `Allocation.InputOrderIsIrrelevant` | orchard_chia/allocation/engine.py:162-251 | Any permutation of the records gives identical allocations, and the same excluded records in another order |
| `Apportionment.LeftoverRange` | orchard_chia/allocation/engine.py:209-225 | Fewer mojos are left over than there are claims |
| `Apportionment.LeastDeviation` | orchard_chia/allocation/engine.py:207-237 | Any fair rounding of quotas that sum to the budget minimises the total deviation |
| `Rewards.WeightRange` | orchard_chia/economics/rewards.py:54-74 | One sensor weighs 1, six or more weigh 1.25, none weighs 0, and more never weigh less |
| `Rewards.EachSensorAddsATwentieth` | orchard_chia/economics/rewards.py:54-74 | The second to the sixth sensor add one twentieth each, and no other sensor adds that |
| `Rewards.CalculateDailyRewards` | orchard_chia/economics/rewards.py:172-246 | The loops compute the specified rewards or error, and the final over-ceiling check never fails |
| `Rewards.DistributedWithinCeiling` | orchard_chia/economics/rewards.py:172-246 | A day distributes between nothing and its ceiling, and at full uptime leaves fewer mojos than rewarded Trees |
| `Rewards.RewardsAreEarned` | orchard_chia/economics/rewards.py:216-234 | The rewards are one for each counted Tree: its share of the ceiling times its uptime, rounded down |
| `RewardDetails.RewardsAreOfTheTrees` | orchard_chia/economics/rewards.py:172-246 | One reward for every eligible Tree with a sensor and no others: its weight's part of the ceiling, and of that the hours it was heard, each without its fraction |
| `RewardDetails.EveryOtherTreeIsListed` | orchard_chia/economics/rewards.py:172-215 | Every other Tree is listed as ineligible with its reason, and nothing else is |
| `RewardDetails.ListedByTree` | orchard_chia/economics/rewards.py:216-234 | Rewards are listed by Tree, and of one Tree by wallet |
| `Rewards.HeartbeatsAreLocal` | orchard_chia/economics/rewards.py:172-246 | Changing one Tree's heartbeats changes no other reward, and more heartbeats never earn less |
| `Rewards.AnotherTreeRaisesNobody` | orchard_chia/economics/rewards.py:172-246 | Adding a Tree, wherever it is listed, raises nobody's reward |
| `Rewards.SensorsOnlyHelpTheirOwner` | orchard_chia/economics/rewards.py:54-74 | More sensors on one Tree earn it no less and nobody else any more |
| `RewardInvariance.WalletsDoNotMatter` | orchard_chia/economics/rewards.py:172-246 | Moving Trees between wallets changes no Tree's reward |
| `RewardInvariance.OrderDoesNotMatter` | orchard_chia/economics/rewards.py:172-246 | The same Trees in another order earn the same rewards |
| `RewardInvariance.OrderIsCanonical` | orchard_chia/economics/rewards.py:218-234 | With distinct Tree ids the rewards are also listed in the same order |
| `RewardInvariance.CollectByWallet` | orchard_chia/economics/rewards.py:158-169 | The dictionary of what each wallet is owed |
| `RewardInvariance.WalletsSumToDistributed` | orchard_chia/economics/rewards.py:150-169 | The wallets' totals sum to what was distributed |
| `MoreTrees.RiseIsItsOwnReward` | orchard_chia/economics/rewards.py:172-246 | Another Tree, wherever it is listed, raises the distributed total by at most its own reward |
| `MoreTrees.HarmlessTreeIff` | orchard_chia/economics/rewards.py:172-246 | A Tree raises the total of no fleet at no ceiling if and only if it does not count or has no heartbeats |
| `MoreTrees.RiseIsTheOwnersGain` | orchard_chia/economics/rewards.py:172-246 | More sensors on a Tree raise the distributed total by at most what its owner gains |
| `MoreTrees.HarmlessSensorsIff` | orchard_chia/economics/rewards.py:172-246 | More weight on a Tree raises the total of no fleet at no ceiling if and only if the Tree has no heartbeats |
| `Emission.CeilingIsTheSmaller` | orchard_chia/economics/emission.py:68-88 | The ceiling is the smaller of the scheduled rate and the pool, and is called pool-limited exactly when the pool is below the rate |
| `Emission.ScheduleFitsThePool` | orchard_chia/economics/emission.py:166-173 | Eight years of the schedule allow 84,999,999,150 mojos, 850 fewer than the pool |
| `Emission.RatesNeverRise` | orchard_chia/economics/constants.py:57-74 | A later day's rate is never higher |
| `Emission.EachYearIsFourFifths` | orchard_chia/economics/constants.py:53-74 | Each year of the schedule has four fifths of the rate before it, to the nearest hundredth of a token; from the eighth year on the rate stays |
| `Emission.EnoughForEveryScheduledDay` | orchard_chia/economics/emission.py:68-88 | Every one of the first 2920 days is covered by what the schedule has left |
| `Emission.RunwayCovers` | orchard_chia/economics/emission.py:176-185 | The next runway days are covered by the pool, whatever is distributed on them |
| `Settlement.DaySettles` | orchard_chia/economics/settlement.py:86-105 | A day settles exactly when it is not before genesis, the pool is not negative and no eligible Tree has a negative sensor count; it then pays no more than ceiling and pool |
| `Settlement.EveryObservationIsAccepted` | orchard_chia/economics/settlement.py:30-60 | Whatever the oracle reports of a named Tree, the reward rule accepts the clamped observation |
| `Settlement.ObservationIsKept` | orchard_chia/economics/settlement.py:30-60 | Hours within a day come through as told and others are cut to it; name, wallet and eligibility are the observation's own, but for a wallet that is missing |
| `Settlement.SensorsCountOnce` | orchard_chia/economics/settlement.py:45-58 | A declared sensor counts once, however often it is declared, and a nameless one never |
| `Ledger.PoolLedger.Record` | orchard_chia/economics/ledger.py:168-219 | All rows are written or none; every refusal by its cause, with the ledger unchanged |
| `Ledger.PoolLedger.InsertAll` | orchard_chia/economics/ledger.py:211-218 | The row inserts succeed exactly when no day and Tree is repeated |
| `Ledger.PoolLedger.Audit` | orchard_chia/economics/ledger.py:129-164 | The loop reports exactly the specified problems, day by day |
| `LedgerSafety.AuditIsExact` | orchard_chia/economics/ledger.py:129-164 | The audit is silent if and only if row sums, ceilings and the balance chain all re-derive |
| `LedgerSafety.LedgerIsSound` | orchard_chia/economics/ledger.py:100-219 | After any run of settlements the days are strictly increasing, distributed plus remaining is the pool, remaining is not negative, and the audit is silent |
| `LedgerSafety.RecordedExactlyWhen` | orchard_chia/economics/ledger.py:168-219 | A settled day is recorded if and only if it is later than every recorded day and no Tree is rewarded twice; never refused for the pool |
| `OwedWallets.WalletIsOwedItsTrees` | orchard_chia/economics/rewards.py:150-169 | A day owes every wallet exactly what that wallet's own Trees earned |
| `OwedWallets.ReadBack` | orchard_chia/economics/payment.py:115-134 | What `pay` reads back from a day's rows is what the day owes by wallet |
| `OwedWallets.RecordedForGood` | orchard_chia/economics/ledger.py:168-219 | In every run, whatever is settled before and after, a recorded day owes every wallet what its own Trees earned, and that is what `pay` reads |
| `OwedWallets.EveryCountedTreeHasItsRow` | orchard_chia/economics/ledger.py:205-219 | Every Tree that counts has its row on a recorded day: whose it is, what it was given and on what grounds |
| `LedgerSafety.ScheduleIsNeverPoolLimited` | orchard_chia/economics/emission.py:68-88 | In every run, no day below 2920 that is recorded, or can still be, has a pool-limited ceiling |
| `LedgerSafety.RunwayIsNeverPoolLimited` | orchard_chia/economics/emission.py:176-185 | From any reachable state, if no earlier day is settled afterwards, none of the next runway days is pool-limited |
| `Runway.RunwayHoldsExactlyWhen` | orchard_chia/economics/emission.py:176-185 | From any reachable state, whatever is settled next, none of the runway days is pool-limited if and only if the runway is zero or the pool covers the schedule from the first unsettled day to its end |
| `Runway.CaughtUpRunwayHolds` | orchard_chia/economics/runner.py:481-493 | With no day before it left to settle, the runway read for a day always holds |
| `Runway.BacklogOutrunsTheRunway` | orchard_chia/economics/runner.py:481-493 | Nineteen busy days behind, the runway read is 19 days, and settling the backlog makes the second of them pool-limited |
| `SettleAll.Run` | orchard_chia/economics/runner.py:362-419 | Settling all writes, for consecutive days after the last settled one, exactly what each season's own Trees settle to, none of them with a wallet out of sight; it stops at the first season that cannot be settled, with the exit code of its cause; a dry run writes nothing and ends well if and only if no season is in the way; ending well, every closed season is settled if and only if none before the last settled one was missing |
| `SettleAll.SettleOne` | orchard_chia/economics/runner.py:382-415 | One season of the loop: what is written is what its Trees settle to, and it ends well if and only if they settle with every wallet in sight and the ledger takes them |
| `SettleAll.BlindExactlyWhen` | orchard_chia/economics/runner.py:207-219 | A settlement is wallet-blind if and only if a Tree with heartbeats does not share in it and its reason speaks of a wallet; a missing sensor is never taken for that |
| `SettleAll.UnseenWalletIsBlind` | orchard_chia/economics/settlement.py:48-53 | An eligible Tree that was heard and shows no wallet makes its day blind |
| `SettleAll.TenthThenAll` | orchard_chia/economics/runner.py:310-419 | In the eleventh season, settling the tenth and then all ends well twice and settles one day; the nine before it are refused from then on |
| `SettleAll.One` | orchard_chia/economics/runner.py:310-359 | Settling one season writes exactly what its Trees settle to, or nothing; with confirmation a closed season ends well if and only if it is settled already or its Trees can be recorded with every wallet in sight; the other exit codes by their causes |
| `Exhaustion.EqualWeightsPayExactlyWhen` | orchard_chia/economics/emission.py:134-163 | With equal weights nothing is paid below one mojo per Tree, and at full uptime that is the only way |
| `Exhaustion.FullUptimePaysExactlyWhen` | orchard_chia/economics/emission.py:134-163 | Full uptime pays every fleet of n rewarded Trees at least one mojo, whatever their weights, if and only if the pool is not called exhausted and the day's schedule allows n mojos |
| `Exhaustion.FourFifthsPayNobody` | orchard_chia/economics/emission.py:150-163 | Under any weights nothing is paid when five times the ceiling is at most four times the Trees |
| `Exhaustion.NothingPayableExactlyWhen` | orchard_chia/economics/emission.py:150-163 | Nothing can be paid to any fleet of n rewarded Trees if and only if 5 * ceiling <= 4 * n |
| `Exhaustion.ExhaustedTooSoon` | orchard_chia/economics/emission.py:150-163 | Five mojos and six Trees are called exhausted, and still a Tree is paid |
| `Polymod.Polymod` | oracle/app/wallet_auth.py:93-101 | The loop computes the specified checksum from the program's generator constants |
| `Polymod.StepXor` | oracle/app/wallet_auth.py:93-101 | A polymod step is linear over GF(2) |
| `Polymod.StepKernel` | oracle/app/wallet_auth.py:93-101 | A polymod step is injective on 30-bit states |
| `Polymod.OneValueMatters` | oracle/app/wallet_auth.py:93-101 | Changing exactly one value changes the checksum, at any length |
| `Polymod.SixValuesMatter` | oracle/app/wallet_auth.py:93-101 | Any change within six values in a row changes the checksum, at any length |
| `Polymod.ChecksumCloses` | oracle/app/wallet_auth.py:289-293 | The appended checksum makes the decoder's polymod the bech32m constant (BIP-350) |
| `Regrouping.RegroupingRoundTrip` | oracle/app/wallet_auth.py:131-288 | Bytes to five-bit groups, padded, and back to bytes is the identity |
| `Regrouping.ToQuintets` | oracle/app/wallet_auth.py:278-288 | The accumulator loop produces the groups of the bytes' bit string, the last one padded with zeros |
| `Regrouping.ToOctets` | oracle/app/wallet_auth.py:132-141 | The accumulator loop produces the bytes of the groups' bit string, dropping an incomplete one |
| `Bech32m.Encode` | oracle/app/wallet_auth.py:273-293 | The loops produce the specified address text |
| `Bech32m.PublishedExample` | oracle/app/wallet_auth.py:93-293 | The shortest example of BIP-350 comes out: no data under a is a1lqfn3a |
| `Bech32m.Decode` | oracle/app/wallet_auth.py:112-142 | The loops accept and decode exactly what the specification does |
| `Bech32m.RoundTripIff` | oracle/app/wallet_auth.py:112-293 | Decoding an encoded address gives it back if and only if the human-readable part is non-empty, printable and lower-case, for every text and every byte string |
| `Bech32m.OneChangeIsRejected` | oracle/app/wallet_auth.py:112-142 | One changed data or checksum character of a valid string is always rejected, in either case and at any length |
| `Spelling.SixInARowAreRejected` | oracle/app/wallet_auth.py:112-142 | Any change within six characters in a row after the separator, but for case and new separators, is rejected, at any length |
| `Spelling.OnlySpellingsParse` | oracle/app/wallet_auth.py:112-142 | Every accepted text is, in lower case, its own groups under the one checksum that closes them |
| `Spelling.OwnSpellingIff` | oracle/app/wallet_auth.py:112-142 | An accepted text is, in lower case, the encoder's own if and only if the bits it leaves over are fewer than five zeros |
| `Spelling.EveryAddressHasAnotherSpelling` | oracle/app/wallet_auth.py:112-293 | For every good human-readable part and every bytes there is another lower-case text that is read as the same address |
| `Clvm.CurryHashIsTreeHash` | oracle/app/wallet_auth.py:168-203 | The hash computed from the argument hashes is the plain tree hash of the curried program, for every argument list |
| `Clvm.CurryMeansApplication` | oracle/app/wallet_auth.py:168-203 | Evaluating the curried program yields a value if and only if the module does on the arguments consed onto the environment |
| `Clvm.TreeHashBinds` | puzzles/build.py:29-35 | One tree hash, one program, or a collision is handed back |
| `WalletAuth.OwnAddressIsAccepted` | oracle/app/wallet_auth.py:300-371 | The address derived from a key is accepted with that key and a signature that verifies |
| `WalletAuth.AcceptedExactlyWhen` | oracle/app/wallet_auth.py:300-371 | Accepted if and only if the address is the key's own, of 32 bytes on one of the two networks, and the signature verifies over the message's payload; test mode waives the signature only |
| `WalletAuth.RefusedForCause` | oracle/app/wallet_auth.py:300-371 | A refusal names its cause: a bad signature is reported if and only if everything before it held and it does not verify |
| `WalletAuth.PuzzleHashIsTreeHash` | oracle/app/wallet_auth.py:247-263 | The puzzle hash of a key is the tree hash of the template curried with it |
| `WalletAuth.OneKeyPerAddress` | oracle/app/wallet_auth.py:247-371 | Two keys accepted for one address are the same key, or a collision is handed back |
| `SignedMessage.Utf8Injective` | oracle/app/wallet_auth.py:212-229 | The text encoding tells messages apart |
| `SignedMessage.HexRoundTrip` | oracle/app/wallet_auth.py:212-229 | Any bytes spelled in hex, with or without the prefix, are what is signed |
| `SignedMessage.PayloadBindsBytes` | oracle/app/wallet_auth.py:232-244 | Payloads are equal if and only if the decoded bytes are, or a collision is handed back |
| `SignedMessage.PayloadIsTreeHash` | oracle/app/wallet_auth.py:232-244 | What is signed is the tree hash of the fixed prefix consed onto the message's bytes |
| `SignedMessage.PlainTextIsBound` | oracle/app/wallet_auth.py:212-244 | Among messages that do not read as hex, a payload belongs to one message, or a collision is handed back |
| `SignedMessage.HexTextCollides` | oracle/app/wallet_auth.py:212-244 | The texts hi, 6869 and 0x6869 have one payload, whatever the hash |
| `SignedMessage.OnlyTheEmptyMessageStandsAlone` | oracle/app/wallet_auth.py:212-229 | A message is the only one with its bytes if and only if it is empty |
| `RateLimiter.FixedWindowLimiter.Allow` | oracle/app/ratelimit.py:41-59 | With a non-decreasing clock the answer is that of an unswept log: accept if and only if fewer than `limit` accepted events of the key are in the window |
| `RateLimiter.FixedWindowLimiter.Sweep` | oracle/app/ratelimit.py:61-71 | A sweep removes every fully aged key and leaves what any window can still see |
| `RateLimiter.Serve` | oracle/app/ratelimit.py:41-71 | For any client with a non-decreasing clock, every answer is the unswept one and no window of any key ever holds more than `limit` accepted events |

## Left out

- PaymentTheorems.AtMostOncePerDayAndWallet: assumes caps that are not negative, which PaymentCaps.PaysOnceIffCapsAreNotNegative shows to be exactly when it holds, and that an exception means the spend was not accepted.
- PaymentTheorems.OnePlanPerDay: the same caps, exactly by PaymentCaps.PaysOnceIffCapsAreNotNegative.
- PaymentTheorems.PaidMeansPaid: the same caps, exactly by PaymentCaps.PaidIsSentIffCapsAreNotNegative; `pay` takes no run lock, so runs are modelled one after another.
- PaymentTheorems.UnblockedNeverSkips: the same caps, exactly by PaymentCaps.SkipsNothingIffCapsAreNotNegative.
- RunLock.AtMostOncePerCycleAndWallet: limits that are not negative, exactly by AllocationCaps.LimitsDecide, and a lock that cannot be taken from a living holder; the file is created with its holder's pid in one step.
- RunLock.CycleStaysWithinItsBudget: the same limits and lock. The collector's period, which comes from the wall clock, and `run_scheduler` are not modelled.
- LedgerSafety.RunwayIsNeverPoolLimited: no earlier day is settled afterwards; Runway.RunwayHoldsExactlyWhen says exactly when the runway holds otherwise.
- AttestWriter.SecondRunIsEmpty: a list that names two Trees whose ids differ in case only is not covered.
- AttestWriter.NeverDowngraded: needs reads that do not fail, because a failed read bypasses the guard; DowngradedExactlyWhen is the exact condition.
- WriterAgreement.RunVerifies: a season with nothing on chain yet, no Tree listed twice, and reads that do not fail; AttestWriter.NeverDowngraded and AttestWriter.DecisionIsStable speak of records that are there already.
- PublishContents.LatestIsTheHour: not of several hours of one node in one run when the store's latest record already carries that run's own time.
- Allocation.InputOrderIsIrrelevant: the list of excluded records keeps the order of the input.
- Schema.SeasonRootBindsReadings: hour boundaries are not bound, because hour roots are used directly as leaves; SeasonShape.SameRootIff says what is.
- RPC, HTTP, TLS, command-line output, configuration and key files, SQL and its migrations: the wallet, DataLayer and tables are abstract state.
- SHA-256, ECDSA, BLS, JSON and date parsing are parameters; readings whose fields have unexpected types are modelled by absent fields, and a record whose `readings` is not a list is not modelled.
- Lower- and upper-casing is ASCII. A message with lone surrogates, which UTF-8 cannot encode, has no model.
- The service's check of its minimum uptime: it concerns what is collected.
- The audit store's events and cycle inputs, confirmation tracking, and a missing spender: they decide nothing about money.
- The float reward and `aggregate_by_wallet` of the payout calculator, and the watermark: a superseded payout.
- `observe_season`, the chain-hours consult and the exclusion of duplicated device keys: what is observed for a season is an input.
- The HTTP collector, inclusion and root waiting, store paging, NFT minting, dashboard, firmware and panels.
- `pool_after`, `past_schedule`, the model version and settlement time stored with a day, the counting of running hours, and a Tree's first plausible season, which is an input here.

# A verified model of the mROS 2 QoS experiments

This project models the decision-making code of the experiment repository in Dafny and proves what that
code is relied on for: the statistics, the two resumable measurement campaigns, the telemetry runtime on
the board, and the reconstruction of RTPS traffic from packet captures.

The model starts from parsed rows, events and frames. Floating-point numbers are reals, tolerances are
parameters, and hardware, child processes, sinks and shuffles are arbitrary functions or arguments, so
every statement holds whatever they answer. Code that changes state step by step is written as methods
and classes with loops; each such method is proved against a specification function or predicate, and the
theorems are proved about those.

| module | models |
|---|---|
| `Prelude`, `Ordering`, `Binary` | sums, filters, counting, Python's stable sort, bits and little-endian words |
| `SignFlip`, `Holm`, `Familywise`, `BlockEstimate` | exact sign-flip tests, Holm's correction in both versions, the error bound of the two together, block estimates |
| `H2bDesign`, `H2bValidity`, `H2bRunner`, `H2bHistory`, `H2bAudit` | the per-message campaign: its schedule and the check of it, its visit loop and ledger, all crash histories, and the audit |
| `MechanismCampaign`, `CampaignRunner`, `CampaignHistory` | the Seven-QoS mechanism campaign: its disk and loops, the process that writes it, all histories and chunked resumes |
| `Lifecycle`, `Handshake`, `RecordStream` | the board's telemetry: state machine, cross-core sampling, sequenced and checksummed records |
| `SequenceSet`, `RtpsEvents`, `Heartbeats`, `WireCost` | SequenceNumberSet decoding (section 9.4.2.6 of DDSI-RTPS 2.2), NACK links and flow summaries, heartbeat de-duplication and censoring, epoch alignment and accounting |

Crashes are modelled by writes: the specification of a process is the sequence of all disk states it
writes, the class that models the process is proved to write exactly that sequence, and a history is any
series of processes each cut off after any of its writes.

Findings that differ from what the documentation suggests:

- Calling start while an init is still running lets a failing init take a started lifecycle back, so two start calls can
  both return success (`Lifecycle.EarlyStartAllowsTwoStarts`). Both happen exactly when the init has not settled
  (`Lifecycle.StartIsSafeExactlyWhenSettled`, `Lifecycle.TwoStartsExactlyWhenEarly`).
- The sampling handshake guarantees freshness only until the first timeout. A late token then passes for the next
  snapshot's without any fault flag (`Handshake.OneTimeoutSpoilsTheNext`); the exact condition is that the sampler sleeps
  and the semaphore is empty when the snapshot notifies.
- A passing attempt with a fatal marker in its log does not stop the running campaign process but stops every resume
  (`CampaignHistory.FatalPassBreaksResume`); resuming equals one uninterrupted process exactly when a chunk has not left
  a campaign in progress with a fatal marker on disk.
- A visit that an exception interrupts can be made again exactly when none of its runs was accepted; after one accepted
  run, as after a FAIL manifest, no later process over the schedule writes anything (`H2bHistory.AbortedVisit`,
  `H2bHistory.FailedVisitIsRefused`).
- The schedule check does not require the file to be in block order (`H2bDesign.ValidityIgnoresBlockOrder`). A valid
  schedule can be completed exactly when its losses are known and each cell's visits come in block order
  (`H2bHistory.CompletesExactlyInBlockOrder`); a built schedule always is, and one with its first block moved to the end is
  valid but cannot be completed by any history (`H2bHistory.OutOfOrderScheduleFails`, `H2bHistory.ValidScheduleCanFail`).
- The schedule check does not look at a row's qos and loss columns (`H2bDesign.ValidityIgnoresColumns`), but the audit
  counts by them. A completed campaign passes the audit's checks of accepted rows exactly when the columns of every block
  name each cell once (`H2bAudit.CompleteCampaignPassesAudit`). A built schedule's columns do
  (`H2bAudit.BuiltCampaignPassesAudit`); there are valid schedules whose completed campaign the audit refuses
  (`H2bAudit.CompletedCampaignCanFailAudit`).
- The pair of directions adds up to the whole pair only when board and host addresses differ (`WireCost.PairIsConserved`).

## Model

| member | source | states |
|---|---|---|
| SignFlip.BlockedSignFlip | scripts/experiment/analyze_round6_factorial.py:179-192 | the mask loop returns the mean effect and the share of all 2^n sign assignments whose absolute mean reaches the observed one less the tolerance, which is the share whose signed sum lies in one of the two tails; with no block it returns nan and 0 |
| SignFlip.ExactSignFlipIsPValue | scripts/experiment/analyze_three_system_formal.py:42-52 | the product-of-signs loop over the finite entries computes that same share of the two tails, and nan when none is finite |
| SignFlip.MaskOrderEnumerates | scripts/experiment/analyze_round6_factorial.py:181-186 | counting masks upward meets every sign assignment exactly once |
| SignFlip.ProductOrderEnumerates | scripts/experiment/analyze_three_system_formal.py:48-51 | the product order meets every sign assignment exactly once |
| SignFlip.EnumerationCountsHits | scripts/experiment/analyze_round6_factorial.py:187-189 | any order that meets each assignment once counts the same hits |
| SignFlip.ExactValidity | scripts/experiment/analyze_round6_factorial.py:179-189 | of the 2^n sign-flipped effect vectors at most k have a hit count of k or less, because flipping leaves the null set unchanged |
| SignFlip.ExactLevel | scripts/experiment/analyze_round6_factorial.py:179-189 | the p-value is at most alpha for at most alpha times 2^n assignments |
| SignFlip.AssignmentCount | scripts/experiment/analyze_round6_factorial.py:181 | there are 2^n assignments |
| SignFlip.HitsComeInPairs | scripts/experiment/analyze_round6_factorial.py:187-189 | the hit count is even, and at least 2 for a non-negative tolerance |
| SignFlip.NegationKeepsHits | scripts/experiment/analyze_round6_factorial.py:187-189 | negating every effect changes no hit |
| SignFlip.PValueOfMultiset | scripts/experiment/analyze_round6_factorial.py:179-189 | the p-value does not depend on the order of the blocks |
| SignFlip.PValueCountsTails | scripts/experiment/analyze_round6_factorial.py:181-192 | p * 2^n counts the sign choices whose signed sum t has t >= b or t <= -b, with b the observed sum made non-negative less n times the tolerance |
| SignFlip.OneSignIsMostExtreme | scripts/experiment/analyze_round6_factorial.py:187-189 | effects of one sign have p-value 2 / 2^n, unless n times the tolerance reaches twice the smallest of them |
| SignFlip.CancellingIsLeastExtreme | scripts/experiment/analyze_round6_factorial.py:187-189 | effects that add up to 0 have p-value 1 |
| SignFlip.OnePValue | scripts/experiment/analyze_three_system_formal.py:42-52 | the mask loop over any effects and the product loop over any permutation of them, or of their negations, return the same p-value |
| Holm.HolmAdjust | scripts/experiment/analyze_round6_factorial.py:46-54 | the step-down loop gives each p-value the order-free adjusted value: the largest (number of p-values at least y) times y over values y up to it, capped at 1 |
| Holm.HolmAdjustFinite | scripts/experiment/analyze_three_system_formal.py:55-64 | the variant with the cap inside the running maximum equals the plain version on the finite entries, scattered back, and nan elsewhere |
| Holm.RankMaxIsRunning | scripts/experiment/analyze_round6_factorial.py:51-53 | the running maximum over ranks is the order-free maximum, ties included |
| Holm.AdjustedMonotone | scripts/experiment/analyze_round6_factorial.py:46-54 | adjusted values are monotone in p, so ties get equal values |
| Holm.AdjustedOfMultiset | scripts/experiment/analyze_round6_factorial.py:46-54 | permuting the input permutes the output |
| Holm.AdjustedIs | scripts/experiment/analyze_round6_factorial.py:51-53 | an adjusted value lies between 0 and 1; it is 1 exactly when some product of a value up to it and the number of values at least as large reaches 1, and otherwise the largest such product or 0 |
| Holm.AdjustedIsLarger | scripts/experiment/analyze_round6_factorial.py:51-53 | a p-value is never adjusted downwards, and never beyond 1 |
| Holm.RejectedExactly | scripts/experiment/analyze_round6_factorial.py:50-53 | a hypothesis is rejected at alpha < 1 exactly when every rank up to its own passes (total - rank) p <= alpha |
| Holm.FamilywiseCore | scripts/experiment/analyze_round6_factorial.py:46-54 | if some member of any index set T is rejected then some j in T has T-size times p[j] <= alpha |
| Familywise.UnionBound | scripts/experiment/analyze_round6_factorial.py:172-191 | over any set of contrasts, few assignments give any of them a small p-value |
| Familywise.FamilywiseError | scripts/experiment/analyze_round6_factorial.py:162-192 | exact tests corrected by Holm falsely reject some true null for at most alpha times 2^n assignments, whatever the other p-values are |
| BlockEstimate.GroupByBlock | scripts/experiment/analyze_h2b_formal.py:134-138 | grouping collects exactly the estimable outcomes of the loss, by block and QoS, in run order |
| BlockEstimate.CellValuesAre | scripts/experiment/analyze_h2b_formal.py:115-120 | a cell's values are the outcomes, in run order, of exactly the runs of that QoS and loss that could be estimated |
| BlockEstimate.BlockValuesAre | scripts/experiment/analyze_h2b_formal.py:134-138 | a block's values of a cell are the outcomes, in run order, of exactly the runs of that block, QoS and loss that could be estimated |
| BlockEstimate.ExactBlockSignFlip | scripts/experiment/analyze_h2b_formal.py:134-163 | raises incomplete blocks exactly when the seen blocks are not 1..blocks, unbalanced for the first unbalanced block, and otherwise returns the block differences, their mean and its exact p-value |
| BlockEstimate.RegroupedIsCell | scripts/experiment/analyze_h2b_formal.py:134-149 | walking block by block meets every outcome of a cell exactly once |
| BlockEstimate.EstimateIsMeanDifference | scripts/experiment/analyze_h2b_formal.py:147-152 | under balance the mean of block differences is the difference of the two cell means used by the bootstrap, for any number of blocks and runs |
| BlockEstimate.GroupCells | scripts/experiment/analyze_h2b_formal.py:115-128 | the bootstrap grouping holds exactly the non-empty cells and stops only at a cell of the wrong size |
| H2bDesign.ValidateSchedule | scripts/experiment/h2b_formal_common.py:135-164 | accepts exactly the valid schedules, and each complaint names a check that fails |
| H2bValidity.ValidExactlyDesigns | scripts/experiment/h2b_formal_common.py:135-164 | the sorted comparisons per block accept exactly the files of a hundred rows with block and visit in 1..10, a known cell, runs 3b-2 to 3b, no visit and no cell twice in a block, and two blocks in different orders |
| H2bDesign.ValidVisitsEachCellOnce | scripts/experiment/h2b_formal_common.py:144-161 | a valid schedule visits each cell exactly once in each of the ten blocks and contains no other row |
| H2bDesign.ValidVisitsAreDistinct | scripts/experiment/h2b_formal_common.py:144-161 | no two rows of a valid schedule are the same visit |
| H2bDesign.BuiltIsValid | scripts/experiment/build_h2b_design_assets.py:38-65 | a built schedule is valid exactly when its ten shuffles are not all the same |
| H2bDesign.ValidityIgnoresBlockOrder | scripts/experiment/h2b_formal_common.py:135-164 | moving whole blocks from the front of the file to its end never changes the verdict of the check |
| H2bDesign.ValidityIgnoresColumns | scripts/experiment/h2b_formal_common.py:135-164 | changing the qos and loss columns of any rows never changes the verdict of the check |
| H2bDesign.BuildSchedule | scripts/experiment/build_h2b_design_assets.py:38-65 | the nested loops lay out the shuffles block by block and the closing validation fails only for lack of randomization |
| H2bRunner.Campaign.Run | scripts/experiment/run_h2b_formal.py:205-593 | one process writes exactly the disk states of the specification Process, argument, gate and schedule checks included; a closing network check that fails changes nothing but the exit |
| H2bRunner.Campaign.RunAdmitted | scripts/experiment/run_h2b_formal.py:331-588 | the visit loop skips passed visits, stops at the first refusal, and marks the campaign complete only without a visit limit |
| H2bRunner.Campaign.Turn | scripts/experiment/run_h2b_formal.py:335-362 | one turn resumes past PASS, refuses any other manifest or a wrong prior count, and otherwise carries out the visit |
| H2bRunner.Campaign.CarryOut | scripts/experiment/run_h2b_formal.py:383-576 | a visit logs its runs and then writes PASS exactly when three were accepted |
| H2bRunner.Campaign.RunVisit | scripts/experiment/run_h2b_formal.py:383-546 | the attempt loop logs one row per judged run, with ordinal run_start plus the runs accepted so far, until three are accepted or attempts run out |
| H2bRunner.Campaign.PriorAccepted | scripts/experiment/run_h2b_formal.py:353-356 | counts the accepted ledger rows of a cell |
| H2bRunner.Campaign.AppendAcceptanceRow | scripts/experiment/run_h2b_formal.py:69-80 | the ledger grows by exactly the row and nothing else changes |
| H2bHistory.BadArgumentsAreRefused | scripts/experiment/run_h2b_formal.py:205-254 | a visit limit below one, fewer attempts than three, or a schedule that fails the check ends a process with an error and without a write |
| H2bHistory.OrdinalsNeverSkipOrRepeat | scripts/experiment/run_h2b_formal.py:353-362 | after any series of processes over any schedules, each cut off at any write, each cell's accepted ordinals are 1, 2, 3, ... in append order |
| H2bHistory.HistoryIsSound | scripts/experiment/run_h2b_formal.py:335-588 | over one frozen schedule the disk always holds a prefix of passed visits with exactly their rows, at most one unfinished visit, and nothing else |
| H2bHistory.CompleteLedgerIsExpected | scripts/experiment/run_h2b_formal.py:582-588 | a campaign marked complete holds exactly three accepted rows per visit in schedule order, and every visit passed |
| H2bHistory.CompleteScheduleIsValid | scripts/experiment/run_h2b_formal.py:253-254 | only a process that validated the schedule can have marked the campaign complete |
| H2bHistory.InterruptedVisitIsRefused | scripts/experiment/run_h2b_formal.py:345-362 | once a visit was begun and not finished with PASS, no later process writes anything |
| H2bHistory.OneVisit | scripts/experiment/run_h2b_formal.py:383-576 | a process limited to the next visit leaves exactly the rows that the hardware's answers call for, with consecutive ordinals for accepted runs, and PASS, FAIL or no manifest; it ends without an error exactly for three accepted runs |
| H2bHistory.VisitStates | scripts/experiment/run_h2b_formal.py:518-572 | every judged run is on disk before the next attempt is made, and a manifest is written only after the last one, unless an exception ended the visit |
| H2bHistory.FailedVisitIsRefused | scripts/experiment/run_h2b_formal.py:547-575 | a visit whose attempts hold fewer than three accepted runs and no exception fails its process, leaves its runs and a FAIL manifest, and no later process over the schedule writes anything |
| H2bHistory.AbortedVisit | scripts/experiment/run_h2b_formal.py:383-546 | a visit ended by an exception leaves its logged runs and no manifest; it can be made again exactly when none of them was accepted, and otherwise no later process writes anything |
| H2bHistory.GatesFitExactlyInBlockOrder | scripts/experiment/run_h2b_formal.py:357-362 | every ordinal gate matches the runs of the earlier visits exactly when each cell's visits come in block order |
| H2bHistory.CompletesExactlyInBlockOrder | scripts/experiment/run_h2b_formal.py:335-588 | with hardware that delivers three accepted runs per visit, one process over a valid schedule ends without an error exactly when every loss is known and each cell's visits come in block order, and then the campaign is marked complete |
| H2bHistory.CompleteMeansBlockOrder | scripts/experiment/run_h2b_formal.py:357-362 | whatever the hardware answers and wherever processes are cut off, a history that completes a campaign had each cell's visits in block order |
| H2bHistory.OutOfOrderScheduleFails | scripts/experiment/run_h2b_formal.py:357-362 | a built schedule with its first block moved to the end passes the check, ends in an error on hardware that delivers, and is completed by no history |
| H2bHistory.ValidScheduleCanFail | scripts/experiment/h2b_formal_common.py:135-164 | a schedule that passes the check and still fails, on hardware that accepts every run |
| H2bHistory.BuiltScheduleCompletes | scripts/experiment/build_h2b_design_assets.py:38-65 | with hardware that delivers, a built schedule that passes the check is completed by one process |
| H2bAudit.AuditAccepted | scripts/experiment/audit_h2b_formal.py:93-140 | the audit complains of a check exactly when the accepted rows do not meet it |
| H2bAudit.SortedCheck | scripts/experiment/audit_h2b_formal.py:139-140 | the sorted comparison holds exactly when the ordinals are 1..n in any order |
| H2bAudit.CompleteCampaignPassesAudit | scripts/experiment/audit_h2b_formal.py:94-140 | for every history that reaches COMPLETE the audit has no complaint about the accepted rows (300 in all, 30 per cell, 3 per block and cell, ordinals 1..30) exactly when the qos and loss columns of every block name each cell once |
| H2bAudit.BuiltCampaignPassesAudit | scripts/experiment/audit_h2b_formal.py:94-140 | every history that completes a built schedule meets every check of the accepted rows |
| H2bAudit.CompletedCampaignCanFailAudit | scripts/experiment/audit_h2b_formal.py:94-140 | a valid schedule, a history that completes it, and a check that its accepted rows fail |
| MechanismCampaign.AcceptedIsLast | scripts/experiment/run_seven_qos_mechanism_campaign.py:71-78 | among orderly attempts the accepted one is the last, and there are never several |
| MechanismCampaign.RebuildChecks | scripts/experiment/run_seven_qos_mechanism_campaign.py:71-120 | on any disk with numbered attempts a rebuild gets through exactly when no case has two passing attempts and every receipt of a passing one names it with the files it still has |
| MechanismCampaign.RebuildMends | scripts/experiment/run_seven_qos_mechanism_campaign.py:167-196 | rebuilding an orderly disk meets no error, changes no attempt, and gives every accepted case its receipt |
| MechanismCampaign.FullNeedsNoRebuild | scripts/experiment/run_seven_qos_mechanism_campaign.py:81-120 | with all receipts in place a rebuild writes nothing, so receipts never drift |
| MechanismCampaign.AttemptStates | scripts/experiment/run_seven_qos_mechanism_campaign.py:315-322 | the states of one attempt: each of the child's contents in turn, an empty directory if it made none, then its output as runner.log, then the frozen row |
| MechanismCampaign.PutKeepsInv | scripts/experiment/run_seven_qos_mechanism_campaign.py:281-322 | writing any content into the next attempt of the first unaccepted case keeps the disk orderly and lowers the attempts remaining by one |
| MechanismCampaign.TurnFacts | scripts/experiment/run_seven_qos_mechanism_campaign.py:288-340 | an attempt keeps every state it writes orderly, moves on only past a pass, and leaves a fatal marker on disk when it is fatal |
| MechanismCampaign.WorkKeepsInv | scripts/experiment/run_seven_qos_mechanism_campaign.py:281-353 | every state of the attempt loop is orderly and a loop that ran to its end accepted every case |
| CampaignRunner.Campaign.Run | scripts/experiment/run_seven_qos_mechanism_campaign.py:243-368 | a process starts exactly with a positive budget, the frozen environment, no dry run, and a new output or a resume; it then writes exactly the disk states of the specification Process, and otherwise nothing |
| CampaignRunner.Campaign.RunCases | scripts/experiment/run_seven_qos_mechanism_campaign.py:281-353 | the loop over unit then hardware cases carries out the specified work and ends with its verdict |
| CampaignRunner.Campaign.RunCase | scripts/experiment/run_seven_qos_mechanism_campaign.py:287-340 | the retry loop of a case ends accepted, fatal, exhausted after three attempts, or stopped by the budget, as specified |
| CampaignRunner.Campaign.RunAttempt | scripts/experiment/run_seven_qos_mechanism_campaign.py:292-322 | one attempt directory goes through the child's contents, an empty directory if it made none, the log and the frozen row, and retains the child's last report and logs with its output as runner.log |
| CampaignRunner.Campaign.RebuildLedgers | scripts/experiment/run_seven_qos_mechanism_campaign.py:167-211 | the rebuild loop writes the specified receipts, stops at the first error, and counts accepted units, accepted hardware cases and fatal markers |
| CampaignRunner.Campaign.RecordReceipt | scripts/experiment/run_seven_qos_mechanism_campaign.py:81-104 | an existing receipt is kept, a missing one records the attempt and its files when the attempt passed, and any other attempt is refused without a write |
| CampaignRunner.Campaign.AcceptedAttemptOf | scripts/experiment/run_seven_qos_mechanism_campaign.py:71-78 | the loop over attempts finds none, the one, or several passing attempts |
| CampaignRunner.Campaign.Close | scripts/experiment/run_seven_qos_mechanism_campaign.py:355-362 | the manifest says FAILED after a fatal or exhausted case, COMPLETE exactly for 27 and 32 accepted cases without a fatal marker, else IN_PROGRESS |
| CampaignHistory.ClosingStatusIs | scripts/experiment/run_seven_qos_mechanism_campaign.py:358 | the two counts are 27 and 32 exactly when every case is accepted |
| CampaignHistory.ProcessKeepsSound | scripts/experiment/run_seven_qos_mechanism_campaign.py:270-368 | every state a process writes is orderly, and COMPLETE is never on disk without every case accepted and no fatal marker |
| CampaignHistory.StatusChangesLast | scripts/experiment/run_seven_qos_mechanism_campaign.py:343-362 | only the last state that a process writes has another status than the one it started with |
| CampaignHistory.ProcessRetains | scripts/experiment/run_seven_qos_mechanism_campaign.py:81-120 | no state a process writes changes or removes an attempt or a receipt that was there when it started |
| CampaignHistory.CampaignOrderInvariant | scripts/experiment/run_seven_qos_mechanism_campaign.py:281-353 | in every history attempts are numbered 1, 2, 3 without gaps, a case with any attempt has exactly one passing attempt in every earlier case, and the several-passing and receipt-drift errors are unreachable |
| CampaignHistory.WorkLowersRemaining | scripts/experiment/run_seven_qos_mechanism_campaign.py:288-293 | three attempts per case minus the attempts on disk never rises, falls with every attempt, and falls by the whole budget when the budget stops a process |
| CampaignHistory.WorkResumes | scripts/experiment/run_seven_qos_mechanism_campaign.py:281-353 | a bounded attempt loop is the unbounded one or an initial part of it that continues from the disk alone |
| CampaignHistory.OneAttempt | scripts/experiment/run_seven_qos_mechanism_campaign.py:288-362 | a process with a budget of one retains exactly one new attempt; a receipt is written exactly for a pass, and the status is COMPLETE only for an unmarked pass of the last case, FAILED exactly for a failure with a marker or on the third attempt |
| CampaignHistory.FatalAttemptStops | scripts/experiment/run_seven_qos_mechanism_campaign.py:318-337 | an attempt that does not pass and prints or leaves a fatal marker is the only one of its process: it is retained with its marker and the campaign is FAILED |
| CampaignHistory.RetryFollows | scripts/experiment/run_seven_qos_mechanism_campaign.py:288-340 | a failed attempt whose output and logs show no marker is followed by the next attempt while attempts and budget last |
| CampaignHistory.MarkerOnDiskStops | scripts/experiment/run_seven_qos_mechanism_campaign.py:270-280 | a fatal marker in any retained attempt makes every later process end as FAILED without another attempt |
| CampaignHistory.ResumeEqualsOneShot | scripts/experiment/run_seven_qos_mechanism_campaign.py:270-362 | a chunk and an unlimited resume leave the disk of one unlimited process exactly when the chunk has not left a fatal marker in a campaign still in progress |
| CampaignHistory.ChunksEqualOneShot | scripts/experiment/run_seven_qos_mechanism_campaign.py:270-362 | when no passing attempt shows a fatal marker, resuming with any positive budgets ends within remaining attempts plus one processes in the disk of one unlimited process |
| CampaignHistory.FatalPassBreaksResume | scripts/experiment/run_seven_qos_mechanism_campaign.py:325-329 | a first attempt that passes with a fatal marker makes the resumed campaign differ from the uninterrupted one |
| Lifecycle.StepIsOrderly | components/benchmark_telemetry/benchmark_telemetry.cpp:244-294 | each step moves the state by at most one phase along READY, STARTING, ACTIVE, COMPLETE, and back only from READY by a failing init |
| Lifecycle.RunIsOrderly | components/benchmark_telemetry/benchmark_telemetry.cpp:403-479 | over every interleaving in which start waits for init, at most one start succeeds, no phase from STARTING on is left backwards, and COMPLETE freezes the result |
| Lifecycle.PublishedResultIsFrozen | components/benchmark_telemetry/benchmark_telemetry.cpp:526-531 | once a reader can obtain the result, every later reader sees the same contents |
| Lifecycle.ResultHoldsLastStored | components/benchmark_telemetry/benchmark_telemetry.cpp:249-291 | after any interleaving the result holds for every field exactly the value of the last step that stored it |
| Lifecycle.VisibleResultIsWhole | components/benchmark_telemetry/benchmark_telemetry.cpp:244-294 | a reader never sees a partial result: application entry, start, all 200 intervals, end, tasks, allocation record and faults are there, each with the value stored last |
| Lifecycle.ActiveHasWindowStart | components/benchmark_telemetry/benchmark_telemetry.cpp:249-251 | while ACTIVE is on show the start marker and the window start have been measured |
| Lifecycle.StartedCanComplete | components/benchmark_telemetry/benchmark_telemetry.cpp:244-294 | from every state of a started lifecycle some continuation completes the measurement, whatever it measures |
| Lifecycle.SomeRunCompletes | components/benchmark_telemetry/benchmark_telemetry.cpp:403-479 | some disciplined run from power-on reaches COMPLETE |
| Lifecycle.StartIsSafeExactlyWhenSettled | components/benchmark_telemetry/benchmark_telemetry.cpp:411-479 | after a start no interleaving falls back behind STARTING exactly when no init was still running |
| Lifecycle.TwoStartsExactlyWhenEarly | components/benchmark_telemetry/benchmark_telemetry.cpp:411-479 | after a start, some interleaving lets two start calls return success exactly when an init was still running at that start |
| Lifecycle.EarlyStartAllowsTwoStarts | components/benchmark_telemetry/benchmark_telemetry.cpp:411-479 | from power-on, an interleaving in which a start during an init and a later start both notify and return success |
| Handshake.FreshUntilTimeout | components/benchmark_telemetry/benchmark_telemetry.cpp:84-137 | in every interleaving without a timeout so far, each snapshot's core-0 time and counter come from one sampler pass triggered by its own notify, between its begin and board times, and no token is left over at rest |
| Handshake.SnapshotHoldsReadings | components/benchmark_telemetry/benchmark_telemetry.cpp:84-137 | until the first timeout a finished snapshot holds the clock at its own begin, core-1 reading and end, and the clock and the counter that the sampler read last |
| Handshake.FreshExactlyWhenSamplerIsFree | components/benchmark_telemetry/benchmark_telemetry.cpp:105-115 | after any history the snapshot about to notify is sure to be fresh or to report a timeout exactly when the sampler is asleep and the semaphore empty |
| Handshake.OneTimeoutSpoilsTheNext | components/benchmark_telemetry/benchmark_telemetry.cpp:109-117 | after one timeout a later snapshot can be stale without a fault flag |
| RecordStream.ValidRunToken | components/benchmark_telemetry/benchmark_telemetry.cpp:296-315 | accepts exactly the tokens of 1 to 64 letters, digits, dots, dashes and underscores |
| RecordStream.EmitRecord | components/benchmark_telemetry/benchmark_telemetry.cpp:317-336 | sends a record that fits; only an accepted one advances number and count modulo 2^32 and folds itself and a newline into the checksum |
| RecordStream.EmitRecords | components/benchmark_telemetry/benchmark_telemetry.cpp:533-605 | the accepted records are the longest sendable prefix of window start, 200 samples, window end, tasks and allocation record, the i-th being the text of the i-th of these with number initial + i modulo 2^32, and the stream state accounts for exactly them; success means all were sent |
| RecordStream.EmissionIsDetermined | components/benchmark_telemetry/benchmark_telemetry.cpp:546-602 | for one sink and starting state there is only one way an emission can end |
| RecordStream.EmissionsChain | components/benchmark_telemetry/include/benchmark_telemetry.h:112-121 | a later emission continues numbers, count and checksum as if both had been one |
| RecordStream.NumbersAreDistinct | components/benchmark_telemetry/benchmark_telemetry.cpp:333-334 | no two of 2^32 consecutive records carry the same number, across the wrap-around |
| RecordStream.CrcConcat | components/benchmark_telemetry/benchmark_telemetry.cpp:329-332 | the checksum of a text is the fold over its parts |
| SequenceSet.DecodeSequenceSet | scripts/experiment/reconstruct_rtps_app_samples.py:79-94 | the decoded list is strictly increasing and holds exactly base plus the set bits of the complete words, most significant bit first |
| SequenceSet.MemberOfEncoded | scripts/experiment/reconstruct_rtps_app_samples.py:86-92 | a bit of the encoded bitmap is set exactly for the offsets encoded |
| SequenceSet.DecodeInvertsEncode | scripts/experiment/reconstruct_rtps_app_samples.py:79-94 | decoding an encoded set gives back its offsets below num_bits, and a truncated bitmap exactly those its complete words cover |
| SequenceSet.RoundTrip | scripts/experiment/reconstruct_rtps_app_samples.py:79-94 | encoding and decoding any set of offsets is the identity |
| SequenceSet.DecodedIsUnique | scripts/experiment/reconstruct_rtps_app_samples.py:79-94 | the members and the order determine the list |
| RtpsEvents.IndexData | scripts/experiment/reconstruct_rtps_app_samples.py:305-316 | the index maps each sequence number to the times of its DATA in event order |
| RtpsEvents.ReconstructNackLinks | scripts/experiment/reconstruct_rtps_app_samples.py:305-347 | one link per requested sequence number in order; prior and post say whether strictly earlier or later DATA of that run, flow and number exists, and the delay is the least later gap |
| RtpsEvents.FirstAfterIsLeast | scripts/experiment/reconstruct_rtps_app_samples.py:330-332 | the first later time of a sorted list is the least |
| RtpsEvents.SummarizeFlow | scripts/experiment/reconstruct_rtps_app_samples.py:242-302 | unique plus duplicate observations are the DATA events with a number, repeated numbers are those seen twice, the largest repeat count and the longest time from a first to a last observation are those over all events, and heartbeats, ACKNACKs, ACKNACKs with requests, requested observations and distinct requested numbers are counted from the events |
| RtpsEvents.LinksAndSummary | scripts/experiment/reconstruct_rtps_app_samples.py:253-347 | one explained link for each requested observation of the summary, with the same distinct sequence numbers; the summary's unique and duplicate observations add up to the DATA with a number |
| RtpsEvents.CountDuplicates | scripts/experiment/reconstruct_rtps_app_samples.py:261-284 | the duplicates are what is left after one observation per number |
| Heartbeats.Deduplicate | scripts/experiment/analyze_round6_wire.py:61-68 | the loop keeps the greedy choice of heartbeats |
| Heartbeats.KeptAreSeparated | scripts/experiment/analyze_round6_wire.py:61-67 | kept heartbeats are pairwise at least the gap apart |
| Heartbeats.DroppedFollowsKept | scripts/experiment/analyze_round6_wire.py:61-67 | every dropped heartbeat lies less than the gap after a kept one |
| Heartbeats.KeptIsLargest | scripts/experiment/analyze_round6_wire.py:61-67 | no separated subset of the heartbeats is larger |
| Heartbeats.DeduplicationIsIdempotent | scripts/experiment/analyze_round6_wire.py:61-68 | de-duplicating again changes nothing |
| Heartbeats.FinalHeartbeatIsNearLast | scripts/experiment/analyze_round6_wire.py:79 | the censoring time is the last heartbeat or less than the gap before it |
| Heartbeats.DeriveWireMetrics | scripts/experiment/analyze_round6_wire.py:48-130 | counts, censored requests and the requested and unresolved sets, before and after censoring, and the counts taken over from the flow summary, are those defined from the events themselves; the final heartbeat is that of a board heartbeat, none comes 10 ms after it, and the censored requests are those made at or after it |
| Heartbeats.UniqueHeartbeatsCover | scripts/experiment/analyze_round6_wire.py:52-68 | the heartbeats counted are board heartbeats at least 10 ms apart, and each board heartbeat comes less than 10 ms after one of them |
| Heartbeats.LinkSets | scripts/experiment/analyze_round6_wire.py:84-109 | the sets read off the links are those defined from requests and DATA events |
| WireCost.FirstDataByGuid | scripts/analysis/extract_round6_wire_cost.py:180-192 | each board GUID with target DATA is mapped to its earliest time, keys in order of first appearance |
| WireCost.NewestEpoch | scripts/analysis/extract_round6_wire_cost.py:195-197 | the GUID with the latest first DATA, the first seen among equal ones |
| WireCost.AnalyzePcap | scripts/analysis/extract_round6_wire_cost.py:171-273 | each error is raised exactly on its condition, the missing-target error only with an override; the start detected is the latest first board DATA of any GUID, the first captured of equal ones; the span is from the earliest to the latest frame from the start on, and every cost is that of its category among those frames, added up frame by frame |
| WireCost.NewestEpochIsKept | scripts/analysis/extract_round6_wire_cost.py:198-206 | every board target DATA frame of the selected GUID survives the alignment |
| WireCost.TargetIsConserved | scripts/analysis/extract_round6_wire_cost.py:221-233 | frames, wire bytes and UDP bytes satisfy target = forward + reply - both and target = data + control-only + neither |
| WireCost.ControlIsConserved | scripts/analysis/extract_round6_wire_cost.py:223-233 | target frames with a heartbeat or ACKNACK are control-only plus mixed, and DATA frames are mixed plus DATA without control |
| WireCost.PairIsConserved | scripts/analysis/extract_round6_wire_cost.py:219-220 | pair = board-to-host + host-to-board exactly when the addresses differ or nothing is selected |
| WireCost.InclusionExclusion | scripts/analysis/extract_round6_wire_cost.py:221-233 | overlapping categories count the overlap twice, in frames and in bytes |
| WireCost.CostsAreTotals | scripts/analysis/extract_round6_wire_cost.py:219-240 | each of the nine reported costs is the sum, over the whole capture, of the frames from the start on that its own endpoint and content conditions pick |

## Left out

- Floating-point rounding: all statistics are over reals; the tolerances 1e-15 and 1e-12 are parameters. A mean over no blocks is the only nan of the sign-flip model.
- SignFlip.BlockedSignFlip: starts from the block effects; building them by weighted contrasts of cell means only feeds it.
- Percentiles, contrast tables, medians, bootstrap draws and intervals: draws are random inputs and the rest are pure expressions.
- SequenceSet.DecodeSequenceSet: starts from bytes; turning tshark's hexadecimal text into bytes is input plumbing.
- RtpsEvents.SummarizeFlow: leaves out the two medians of the report, of first retry delays and of heartbeat intervals.
- Heartbeats.DeriveWireMetrics: leaves out the medians of repair latencies and of heartbeat intervals.
- Assigning captured GUIDs to runs and frames to flows: the model starts from events that carry their run and flow.
- WireCost.AnalyzePcap: starts from the frame map; tshark fields and the mapping columns copied into the report are not modelled.
- H2bRunner.Campaign.RunVisit: why a run is rejected, its evidence files and columns are not modelled, only the verdict; flash and network failures are the Abort outcome.
- H2bRunner.Campaign.AppendAcceptanceRow: a row is written in one step, without the header line and the error for a file with another header; a crash that tears a ledger row apart is not modelled. A torn visit manifest is, as one that is not PASS.
- H2bRunner.Campaign.RunAdmitted: a torn design manifest is not modelled; the completion mark is one write.
- H2bRunner.Campaign.Run: the gates before the loop and the network check after it are each one given answer; what they compare, and the directories and input copies made before the loop, are not modelled.
- H2bAudit.AuditAccepted: only the checks of the accepted rows. Ledger rows are typed, so an accepted flag other than 0 or 1 and text that is no integer cannot occur; equality of rejected rows can fail after a crash within a visit, and hashes, captures and manifests are file plumbing.
- CampaignRunner.Campaign.RunAttempt: the attempt inventory is the whole attempt content, and the frozen row's own text is a flag; an environment check that fails is a process cut off at that point.
- CampaignRunner.Campaign.RecordReceipt: a receipt is written in one step, without the firmware hashes copied from the schedule and the check of them.
- CampaignRunner.Campaign.Run: the environment check is one given answer, and the protocol validation and input copies before the first rebuild are not modelled.
- CampaignRunner.Campaign.RebuildLedgers: the two ledger tables it derives from the attempts are not stored.
- Lifecycle.TwoStartsExactlyWhenEarly: the second telemetry task that a second init creates is not modelled; the two starts return before any task runs.
- Lifecycle.VisibleResultIsWhole: the result is a map of fields, stored in the order of the task; the fault flags are one field, and which flag reaches them is not modelled.
- Handshake.FreshUntilTimeout: the 64-bit capture time is read and written in one step, and the heap figures of a snapshot are left out.
- RecordStream.EmitRecords: record texts come from an arbitrary formatting function, and the checksum from an arbitrary byte-at-a-time update instead of the CRC-32 polynomial.
- Task-list collection, CPU load in parts per million, missed-interval counting: their arithmetic is in a header or in flags that carry no further property.
- The P4 and Round 6 variants of campaign and audit, echo nodes, message generators, plotting and packaging: near copies or glue.

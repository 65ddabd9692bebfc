# Placement, migration and shutdown in the HPvC simulator and its agents

A Dafny model of the parts of the repository that decide where work runs, with proofs of what they promise.

- **Organizer** (`simgrid/organizer/hpvc.c`): senders measure traffic in per-pair matrices; every period the organizer smooths and
  clears them, scores VMs and PMs, ranks the PMs and moves at most one VM (`Traffic`, `TrafficBoard`, `Smoothing`, `Scoring`,
  `Ranking`, `PmTable`, `OrganizationManager`). Task processes run a work loop, are placed by a load balancer, reserve and
  release resources and take part in a finalization protocol (`WorkLoop`, `GuestBalancer`, `GuestScale`, `MisstatedRequests`,
  `MisplacedProcess`, `Protocol`, `ProtocolRuns`, `Ledger`, `ResourceNeed`).
- **Rebalancer** (`simgrid/simgrid-project/hpvc.c`): scans that migrate a VM when that costs less than half of what staying costs
  (`Rebalancing`, `RebalancingRuns`, `Rebalancer`, `RebalancerLaunch`, `RebalancerAsWritten`, `RebalancerExamples`,
  `RebalancerShutdown`).
- **Executer** (`c/executer/executer.c`): the record that travels with a VM between hosts (`Executer`, `Teleport`).
- **Monitor server** (`c/monitor/server.c`): the registry of hosts and its integer smoothing (`Registry`).

Code that changes arrays and fields in place is modelled by classes and methods over arrays and fields, each proved against a
specification function or predicate; the interleavings of concurrent processes are modelled as steps of a state machine, and
their theorems hold for every finite sequence of enabled steps. Floating-point values are reals. `pow(n, .)` is an arbitrary
function; where monotonicity or the laws of a power matter they are stated hypotheses (`Exponential`). Random draws, measured
times and process counts are arbitrary inputs. SimGrid calls are single steps: a blocking send is one step of sender and receiver,
a migration is atomic.

What the proofs found out about the code:

- **The work loop can run forever.** It ends if and only if the two sizes add up to the number of steps. With the sizes computed in
  `main` that fails exactly for a positive ratio too small to give one computation (`WorkLoop.WorkEndsIff`), although the comment
  beside them says the sizes avoid an infinite loop. A simulation can end if and only if the loop of every process does
  (`ProtocolRuns.CanEndIff`, `ProtocolRuns.SimulationCanEndIff`).
- **`max_guest_job` can outrun twice the peak.** Over a run it does so if and only if a process exits on the selected VM between a
  decision that doubles the scale past the peak and the creation (`GuestScale.ScaleWithinTwicePeakIff`,
  `GuestScale.ScaleOutrunsPeak`); it never exceeds 2 * (peak + 1).
- **`place_vm` damages its records.** It stores the target PM's index where a VM's belongs and moves bytes for ints. The records stay
  right only if the two indices coincide and the shift does no harm (`RebalancerAsWritten.WrittenPlaceVm`); a scan makes such a
  move for VMs where the launch put them (`RebalancerExamples.WrittenPlaceVmFails`). Apart from these two modules the rebalancer is
  modelled with the bookkeeping repaired as in the organizer's `migrate_vm`: the VM's own index is stored and whole slots are shifted.
- **The rebalancer's launch may create too few VMs.** All are created if and only if the remainder of VMs by hosts is at most the
  number of hosts with an odd index (`RebalancerLaunch.AllCreatedIff`). In the run the repository's README gives, 30 of 480 are
  missing in each cluster (`RebalancerLaunch.ThirtyAreLost`).
- **A placement request carries the memory need as net need.** The balancer minimizes the potential for the request as sent
  (`GuestBalancer.AssignIsOptimal`). The selected VM is the best one for all processes of the same memory need, whatever their net
  need, if and only if no VM has less net reserved and its lead covers a process without net need
  (`MisstatedRequests.BestForEveryProcessIff`), which is so when VMs with less net reserved have no more processes and memory
  (`MisstatedRequests.AlignedIsBest`); for one given process the exact condition is `MisstatedRequests.BestForProcessIff`. A run in
  which the fourth process is misplaced, with two draws of RAND_MAX and a ratio argument of 0, is `MisplacedProcess.MisplacedRun`.
- **PM index 10 is in neither group of hosts** for the down-time penalty, not even in one with itself (`Scoring.PenaltyGroups`).
- **A full target wastes a decision.** A scan of the rebalancer that picks a full PM does nothing there, even when another acceptable
  PM has room (`Rebalancer.Scanner.Visit`, `RebalancerExamples.FullTargetWastes`).
- **A VM started by the teleport that takes it away** leaves a record that says it is still up, and these are the only records that
  wrongly say so (`Teleport.RecordsTellTheTruth`, `Teleport.StaleRecord`).

## Model

| member | source | states |
|---|---|---|
| Rebalancing.MoveChangesPotential | simgrid/simgrid-project/hpvc.c:581-617 | a move changes the cluster potential by exactly its migration cost minus its inhabitancy cost, although both are computed from two PMs only |
| Rebalancing.AcceptedMoveLowersPotential | simgrid/simgrid-project/hpvc.c:620-629 | the acceptance test (cost below half of inhabitancy) makes every accepted move lower the potential strictly, for any monotone power function and non-negative usages |
| Rebalancing.CostsInNumbers | simgrid/simgrid-project/hpvc.c:581-617 | migration and inhabitancy cost are the power terms of load / (scale * cores) and net / 125000000 with the VM less those without it |
| Rebalancing.AcceptedIff | simgrid/simgrid-project/hpvc.c:620 | a move is accepted if and only if it goes to another PM and twice its cost is below the inhabitancy cost |
| RebalancingRuns.MigrationLowersMeasure | simgrid/simgrid-project/hpvc.c:444-487 | a migration lowers a lexicographic measure, doublings left first and placements of lower potential second, also when it doubles the scale |
| RebalancingRuns.MigrationsBounded | simgrid/simgrid-project/hpvc.c:496-646 | with loads frozen every run of migrations is finite: fewer than 4 * pms^vms, whatever the loads and the scan order |
| RebalancingRuns.NoPlacementRecurs | simgrid/simgrid-project/hpvc.c:444-487 | no placement occurs twice between two doublings of the scale |
| Rebalancer.RecordSums | simgrid/simgrid-project/hpvc.c:557-569 | adding up a host's record gives the usage of exactly the VMs that run on it, in whatever order they are listed |
| Rebalancer.Scanner.constructor | simgrid/simgrid-project/hpvc.c:962-1036 | a rebalancer over any records that describe where the VMs run starts valid |
| Rebalancer.Scanner.HostUsage | simgrid/simgrid-project/hpvc.c:557-569 | the accumulation loops return the load and net usage of the VMs on a PM |
| Rebalancer.Scanner.Weigh | simgrid/simgrid-project/hpvc.c:589-629 | one candidate target replaces the choice if and only if it is another PM, acceptable, and no dearer than the choice so far |
| Rebalancer.Scanner.DecideFor | simgrid/simgrid-project/hpvc.c:573-631 | after a VM has been held against all PMs the choice is the cheapest acceptable pair so far, the last of equals |
| Rebalancer.Scanner.Decide | simgrid/simgrid-project/hpvc.c:557-631 | the choice for a PM is the cheapest acceptable move of any of its VMs, and there is none only if no move is acceptable |
| Rebalancer.CheapestUnique | simgrid/simgrid-project/hpvc.c:573-631 | the choice a scan makes at a PM is determined |
| Rebalancer.CheapestMeans | simgrid/simgrid-project/hpvc.c:620-628 | no acceptable move of the PM costs less than the one chosen, and none that is looked at later costs as little |
| Rebalancer.StayMeansStable | simgrid/simgrid-project/hpvc.c:489-495 | a PM that is left alone meets the stability condition: every VM on it would cost at least half its inhabitancy anywhere else |
| Rebalancer.Scanner.FindSlot | simgrid/simgrid-project/hpvc.c:473-475 | the search loop finds the VM's slot, or the record's length |
| Rebalancer.Scanner.PlaceVm | simgrid/simgrid-project/hpvc.c:444-487 | with a full target nothing changes; otherwise VM, both records, count and scale change as intended, no other record does, and the records still list each PM's VMs exactly |
| Rebalancer.Scanner.Visit | simgrid/simgrid-project/hpvc.c:547-640 | a PM's turn is one step of the run semantics, or changes nothing, exactly by whether a move was chosen and its target has room |
| Rebalancer.Scanner.VisitStep | simgrid/simgrid-project/hpvc.c:547-640 | a PM's turn is one step of the run semantics if and only if the PM is not quiet, and changes nothing otherwise |
| Rebalancer.Scanner.Scan | simgrid/simgrid-project/hpvc.c:542-640 | a scan performs a run of accepted migrations and examines the PMs in circular order from the drawn offset; it makes no migration if and only if all PMs are at rest |
| Circle.CircularVisitsOnce | simgrid/simgrid-project/hpvc.c:542-552 | from any offset the circular order meets every PM exactly once |
| Circle.CircularIsModular | simgrid/simgrid-project/hpvc.c:547-552 | the z-th PM looked at is the one with index (x + z) modulo the number of PMs |
| Rebalancer.Scanner.Rebalance | simgrid/simgrid-project/hpvc.c:531-643 | while loads are frozen all scans together migrate fewer than 4 * pms^vms times, and the rebalancer comes to rest: exactly a first part of the scans, fewer than 4 * pms^vms, makes any migration, whatever the offsets |
| RebalancerLaunch.FillHost | simgrid/simgrid-project/hpvc.c:1006-1034 | one host gets the next VMs in order up to its threshold or until all exist |
| RebalancerLaunch.Launch | simgrid/simgrid-project/hpvc.c:964-1036 | the records describe exactly the VMs created, within a PM's capacity |
| RebalancerLaunch.Start | simgrid/simgrid-project/hpvc.c:944-1036 | the rebalancer starts valid and its scale is at least every host's VM count |
| RebalancerLaunch.RoomIs | simgrid/simgrid-project/hpvc.c:986-1004 | closed form of how many VMs the first hosts may get |
| RebalancerLaunch.AllCreatedIff | simgrid/simgrid-project/hpvc.c:984-1036 | all VMs are created if and only if the remainder is at most the number of hosts with an odd index |
| RebalancerLaunch.ThirtyAreLost | simgrid/simgrid-project/README.md:52 | in the run given there each of the two clusters gets 450 of its 480 VMs |
| RebalancerAsWritten.WrittenShift | simgrid/simgrid-project/hpvc.c:472-483 | the byte-count shift leaves a right source record if and only if it is harmless for the slot's position and values |
| RebalancerAsWritten.WrittenRemoveIsMemmove | simgrid/simgrid-project/hpvc.c:477-478 | each slot has as many low bytes from the next one as the bytes moved reach into it, and keeps its others |
| RebalancerAsWritten.WrittenPlaceVm | simgrid/simgrid-project/hpvc.c:444-487 | the bookkeeping as written keeps all records right if and only if the target's index equals the VM's and the shift is harmless |
| RebalancerExamples.IdleMoves | simgrid/simgrid-project/hpvc.c:581-629 | beside a VM with 12 processes an idle one is accepted on every PM loaded less by the scale, the busy one nowhere, and the choice is the PM of least load |
| RebalancerExamples.LessNetIsCheaper | simgrid/simgrid-project/hpvc.c:611-617 | of two PMs with equal load and cores the one with less net in use is the cheaper target for a VM that uses net |
| RebalancerExamples.WrittenPlaceVmFails | simgrid/simgrid-project/hpvc.c:466-478 | a launched state in which the scan decides on a move to a PM with room, and the written bookkeeping does not describe the VMs any more |
| RebalancerExamples.FullTargetWastes | simgrid/simgrid-project/hpvc.c:449-451 | a state in which the one choice a scan can make is a full PM, while another acceptable PM has room |
| RebalancerShutdown.RunKeepsInv | simgrid/simgrid-project/hpvc.c:531-643 | the semaphore has one holder, and a raised flag excludes a scan, in every interleaving |
| RebalancerShutdown.NoMigrationAfterFinish | simgrid/simgrid-project/hpvc.c:935-937 | once finish is set no migration ever starts again |
| RebalancerShutdown.ScanVisitsAll | simgrid/simgrid-project/hpvc.c:547-642 | a scan that finds the flag down makes exactly one visit for each PM before it releases the semaphore |
| RebalancerShutdown.StopsAfterFinish | simgrid/simgrid-project/hpvc.c:535-540 | after that every step brings both processes nearer to their end and some step is always possible |
| PmTable.RemoveItemFromArray | simgrid/organizer/utility.h:6-14 | in place, exactly the item at the index is gone, the order of the rest stays, nothing past the size changes, an index past the size changes nothing |
| VmRecords.RemoveSlotShifts | simgrid/organizer/utility.h:12-13 | what is before the slot stays, what is behind it moves up by one |
| PmTable.Table.constructor | simgrid/organizer/hpvc.c:770-839 | launching gives a partition with VM v on PM v / (vms / hosts) |
| PmTable.Table.CreateVms | simgrid/organizer/hpvc.c:795-839 | the creation loop stays within the hosts and fills every record |
| PmTable.Table.CreateVm | simgrid/organizer/hpvc.c:804-827 | one VM more, in the right record |
| PmTable.Table.TakeOut | simgrid/organizer/hpvc.c:1238-1250 | one record loses exactly the VM, through a copied, shifted and stored-back array; no other record changes |
| PmTable.Table.Append | simgrid/organizer/hpvc.c:1256-1260 | the target's record gets the VM behind its used slots; no other record changes |
| PmTable.Table.MigrateVm | simgrid/organizer/hpvc.c:1222-1263 | the whole new table: VM out of its home record, at the end of the target's, also when both are the same record; the partition is kept |
| PmTable.MigratedPartition | simgrid/organizer/hpvc.c:1222-1263 | taking a VM out of one record and appending it to another keeps the records a partition of where VMs run |
| PmTable.HeldOnce | simgrid/organizer/hpvc.c:820-827 | in a partition each VM is in exactly one used slot of the table, in the record of the PM it runs on |
| PmTable.CountsAddUp | simgrid/organizer/hpvc.c:820-827 | in a partition the counts add up to the number of VMs |
| Ranking.BubblePass | simgrid/organizer/hpvc.c:1132-1140 | one pass, in place, brings the next-last key to its position and keeps equal keys in order |
| Ranking.SortIndices | simgrid/organizer/hpvc.c:1120-1141 | the bubble sort permutes the indices into ascending order, lowest index first among equals |
| Ranking.PickTarget | simgrid/organizer/hpvc.c:1119-1164 | sort and scan refine: the PM of least nextH among those with a free slot, if and only if its gain exceeds 5.5 |
| Ranking.TargetUnique | simgrid/organizer/hpvc.c:1145-1214 | that specification leaves no choice, so the target is determined |
| Ranking.NoTargetMeansNoGain | simgrid/organizer/hpvc.c:1145-1214 | without a target no PM with a free slot gains more than 5.5 |
| Smoothing.RateStep | simgrid/organizer/hpvc.c:1014-1014 | a smoothed rate stays between old and raw rate; exactly when it does not move |
| Smoothing.TruncateIs | simgrid/organizer/hpvc.c:1014 | conversion of a floating-point value to an int cuts off towards zero |
| Smoothing.RateIsMean | simgrid/organizer/hpvc.c:1014 | a smoothed rate is ALPHA times the past plus (1 - ALPHA) times the new rate, cut off |
| Smoothing.SmoothedInRange | simgrid/organizer/hpvc.c:996-1014 | over any history the rate stays within the range of its start and its inputs, in particular at least 1 |
| Smoothing.SettlesFromAbove | simgrid/organizer/hpvc.c:1014-1014 | from above a constant raw rate is reached exactly, without overshoot, within the distance |
| Smoothing.SettlesFromBelow | simgrid/organizer/hpvc.c:1014-1014 | from below it stops for good, within the distance, where (1 - ALPHA) times the gap is below 1 |
| Smoothing.SettlesMonotonically | simgrid/organizer/hpvc.c:1014-1014 | it keeps moving in one direction |
| Smoothing.FixedPoints | simgrid/organizer/hpvc.c:1014-1014 | the rates at rest are exactly those not above the raw rate with a weighted gap below 1 |
| Smoothing.LatencyGap | simgrid/organizer/hpvc.c:1017-1017 | smoothed latencies approach a constant raw latency geometrically: after k periods the gap is ALPHA^k times the first |
| Traffic.CellsAccountForWindows | simgrid/organizer/hpvc.c:1300-1316 | in any interleaving a cell has rate 1 plus the sends of its window and average * rate equal to the initial latency plus their times |
| Traffic.WindowsHoldEverySend | simgrid/organizer/hpvc.c:1010-1025 | each successful send is in exactly one window, in order, across the cell-by-cell clearing |
| Traffic.SamplesConserved | simgrid/organizer/hpvc.c:1008-1025 | all collected cells and the open one together hold every send and all its time |
| TrafficBoard.Board.constructor | simgrid/organizer/hpvc.c:912-933 | both matrices start at their initial values |
| TrafficBoard.Board.RecordSend | simgrid/organizer/hpvc.c:1300-1316 | a successful send changes the cell of its pair, and that cell only; a failed one changes nothing |
| TrafficBoard.SmoothCell | simgrid/organizer/hpvc.c:1014-1017 | a smoothed cell keeps a rate of at least 1 and a latency that is not negative |
| TrafficBoard.Board.Collect | simgrid/organizer/hpvc.c:1010-1025 | the snapshot loop smooths every cell of the raw matrices and sets each back to its initial value |
| TrafficBoard.SnapshotWeights | simgrid/organizer/hpvc.c:1014-1017 | a snapshot gives the past the weight ALPHA: the latency keeps that part of its distance to the raw one, the rate is the weighted mean, cut off |
| TrafficBoard.HistoryOfPair | simgrid/organizer/hpvc.c:1006-1025 | after any series of snapshots a pair's smoothed rate and latency are the smoothed values of its history, oldest first |
| Scoring.ScoresCountTrafficTwice | simgrid/organizer/hpvc.c:1043-1055 | the H of all VMs add up to exactly twice the traffic of all ordered pairs, diagonal included |
| Scoring.PmScoreNonNegative | simgrid/organizer/hpvc.c:1076-1105 | no PM's score is negative |
| Scoring.AloneScoresItsH | simgrid/organizer/hpvc.c:1076-1105 | for a VM alone on its PM the PM's score is exactly its H |
| Scoring.ScoreIsMean | simgrid/organizer/hpvc.c:1080-1103 | a PM's score times the number of its VMs is the sum, over its VMs, of what the candidate's traffic with every VM would come to with that VM's latencies |
| Scoring.EmptyScore | simgrid/organizer/hpvc.c:1096-1102 | an empty PM's score is 0.006 for every message of the candidate, both ways |
| Scoring.PenaltyGroups | simgrid/organizer/hpvc.c:1113-1116 | moves from or to PM 10, also from itself to itself, cost the down time between clusters; the other PMs form the groups below and above it |
| OrganizationManager.ScoreVms | simgrid/organizer/hpvc.c:1038-1055 | the nested loops fill H with the scores of the smoothed matrices |
| OrganizationManager.ScoresSum | simgrid/organizer/hpvc.c:1043-1055 | these values add up to twice the traffic of all ordered pairs |
| OrganizationManager.ScoreVm | simgrid/organizer/hpvc.c:1046-1054 | one VM's H is the traffic to and from every VM; no other H changes |
| OrganizationManager.PickCandidate | simgrid/organizer/hpvc.c:1056-1066 | the first VM of greatest H other than the one moved last, or VM 0 with 0 if no other H is positive |
| OrganizationManager.ScorePms | simgrid/organizer/hpvc.c:1076-1105 | the nested loops fill nextH with the candidate's score on every PM |
| OrganizationManager.ScorePm | simgrid/organizer/hpvc.c:1078-1104 | one PM's score is that of its record for the candidate |
| OrganizationManager.AverageLatencies | simgrid/organizer/hpvc.c:1082-1100 | the averages over a PM's used slots in both directions, or the initial latency for an empty PM |
| OrganizationManager.AddPenalties | simgrid/organizer/hpvc.c:1107-1117 | every nextH grows by its down-time penalty, and nothing else changes |
| OrganizationManager.Decide | simgrid/organizer/hpvc.c:1037-1164 | candidate, H and target are those of the specification |
| OrganizationManager.NextHInNumbers | simgrid/organizer/hpvc.c:1101-1117 | a PM is compared by its score plus the down time from the PM the candidate runs on |
| OrganizationManager.DecisionMeans | simgrid/organizer/hpvc.c:1056-1164 | the candidate is the first VM of greatest H other than the last moved; the target has fewer than five VMs, gains more than 5.5 and precedes all others with fewer than five; without a target none of them gains more |
| OrganizationManager.MovePicksAnotherVm | simgrid/organizer/hpvc.c:1037-1168 | a move needs an H above 5.5 and never takes the VM moved last, also through the default candidate 0 |
| OrganizationManager.Manager.constructor | simgrid/organizer/hpvc.c:947-1003 | the organizer starts with a partition, initial matrices and no last candidate |
| OrganizationManager.Manager.Move | simgrid/organizer/hpvc.c:1164-1212 | one move keeps partition and alternation and is recorded as the last one |
| OrganizationManager.Manager.Choose | simgrid/organizer/hpvc.c:1037-1164 | a chosen target has room and the chosen VM was not the last moved |
| OrganizationManager.Manager.Reorganize | simgrid/organizer/hpvc.c:1037-1215 | at most one VM moves, the decided one to the decided PM, and nothing changes without a target |
| OrganizationManager.Manager.Snapshot | simgrid/organizer/hpvc.c:1009-1025 | smoothing and clearing touch the matrices only |
| OrganizationManager.Manager.Period | simgrid/organizer/hpvc.c:1006-1216 | a whole period: collected matrices, decision by the specification, at most one move, and all invariants kept, so over a run no VM moves twice in succession |
| OrganizationManager.Manager.SendTask | simgrid/organizer/hpvc.c:1277-1322 | a message changes at most the raw cell of its pair, which then accounts for it, and keeps all invariants of the organizer |
| OrganizationManager.Manager.Run | simgrid/organizer/hpvc.c:1006-1216 | over any run of messages and periods the records stay a partition, every raw cell accounts for exactly the messages of its pair since the last period, there is at most one move per period, and no two successive moves take the same VM |
| WorkLoop.Work | simgrid/organizer/hpvc.c:190-230 | the loop's actions, counts and final target are those of the closed form, step by step |
| WorkLoop.GetNextTargetMailBox | simgrid/organizer/utility.h:75-78 | the next target is a VM there is |
| WorkLoop.HopIsShift | simgrid/organizer/utility.h:75-78 | repeated rehashing has a closed form modulo the number of VMs |
| WorkLoop.FinalTarget | simgrid/organizer/hpvc.c:190-230 | the final target is (t0 + seq * (K * C + K * (K - 1))) mod V with K = max(0, ceil((N - 2C) / 2)) |
| WorkLoop.ActionAt | simgrid/organizer/hpvc.c:207-222 | the messages of the closed form go to VMs there are only |
| WorkLoop.TerminatesIff | simgrid/organizer/hpvc.c:190-230 | the loop ends if and only if the two sizes add up to at least the number of steps |
| WorkLoop.StuckLoop | simgrid/organizer/hpvc.c:190-230 | a loop that does not end does, iteration by iteration, what it would do with as many steps as its sizes add up to, and then goes round without doing anything |
| WorkLoop.MainSizes | simgrid/organizer/hpvc.c:1361-1363 | what the two sizes are for every ratio in [0, 1) |
| WorkLoop.StepsOf | simgrid/organizer/hpvc.c:1361 | the number of steps is 0.6 times the number of VMs, cut off |
| WorkLoop.MainTerminatesIff | simgrid/organizer/hpvc.c:1361-1363 | these sizes add up to the steps if and only if there are no steps, the ratio is 0 or it gives at least one computation |
| WorkLoop.WorkEndsIff | simgrid/organizer/hpvc.c:1361-1363 | the work loop with the sizes from `main` ends if and only if there are no steps, the ratio is 0 or it gives at least one computation |
| WorkLoop.MainNeverEnds | simgrid/organizer/hpvc.c:1361-1363 | with 60 VMs and a ratio of 0.02 no number of iterations ends the loop |
| WorkLoop.MainComputations | simgrid/organizer/hpvc.c:190-230 | there are min(C, ceil(N / 2)) computations |
| WorkLoop.SameWork | simgrid/organizer/hpvc.c:190-230 | all sizes that allow half of the steps to be computations lead to identical work |
| WorkLoop.SameWorkForRatios | simgrid/organizer/result/organizer_off_0.5.txt:1 | so do all ratios that give at least half of the steps as computations, as 0.5 and 0.9 do for 60 VMs |
| GuestBalancer.EveryVmOnce | simgrid/organizer/hpvc.c:413-415 | the circular scan meets every VM exactly once from any start |
| GuestBalancer.VisitedIsModular | simgrid/organizer/hpvc.c:413-415 | the z-th VM looked at is z + 1 places after the last one selected |
| GuestBalancer.Balancer.Scan | simgrid/organizer/hpvc.c:413-442 | the scan returns the first VM, in cyclic order, of least marginal cost |
| GuestBalancer.Balancer.Assign | simgrid/organizer/hpvc.c:408-457 | selection, and the scale doubled exactly if the selected VM reaches it |
| GuestBalancer.MarginalIsDifference | simgrid/organizer/hpvc.c:421-427 | the marginal cost is what the placement adds to the total potential |
| GuestBalancer.AssignIsOptimal | simgrid/organizer/hpvc.c:413-442 | no other single placement of the request gives a smaller total potential |
| GuestBalancer.MarginalsTelescope | simgrid/organizer/hpvc.c:421-427 | while scale and processes stay, marginal costs add up to the growth of the potential |
| GuestBalancer.MisstatedRequest | simgrid/organizer/hpvc.c:594-595 | the cost the balancer saw is the true one if and only if memory and net need are the same number |
| MisstatedRequests.TrueMarginal | simgrid/organizer/hpvc.c:594-595 | the process really adds the cost the balancer saw plus the unsaid part weighted with the net reserved on the VM |
| MisstatedRequests.BestForProcessIff | simgrid/organizer/hpvc.c:594-595 | a VM is the best one for a process if and only if its lead in the balancer's figures over every other VM covers what their reserved nets make of the unsaid part |
| MisstatedRequests.BestForLargerNetsIff | simgrid/organizer/hpvc.c:594-595 | the selected VM is the best one for processes of every net need from the memory need up if and only if no VM has less net reserved |
| MisstatedRequests.MostNetIsBest | simgrid/organizer/hpvc.c:594-595 | for a net need below the memory need a selected VM with the most net reserved is the best one |
| MisstatedRequests.BestForEveryProcessIff | simgrid/organizer/hpvc.c:594-595 | the selected VM is the best one for processes of every net need from 0 up if and only if no VM has less net reserved and its lead covers a process without net need |
| MisstatedRequests.AlignedIsBest | simgrid/organizer/hpvc.c:594-595 | when VMs with less net reserved have no more processes and no more memory reserved, the selected VM is the best one for every process |
| MisstatedRequests.EqualNetsSameSelection | simgrid/organizer/hpvc.c:594-595 | while all VMs have the same net reserved the misstatement changes no selection |
| MisplacedProcess.NeedsRatioZero | simgrid/organizer/hpvc.c:1361-1363 | with two VMs the work loop ends if and only if the ratio argument is 0 |
| MisplacedProcess.MisplacedRun | simgrid/organizer/hpvc.c:569-671 | a run from the launch of two VMs, with a ratio of 0 and needs computed from draws, in which the fourth process is not placed on its best VM |
| GuestScale.RunKeepsInv | simgrid/organizer/hpvc.c:413-454 | scale, counts and pending placement stay consistent over any run of decisions, creations and exits |
| GuestScale.ScaleFollowsLoad | simgrid/organizer/hpvc.c:444-445 | in every run the scale is a power of two, at least every count and at most 2 * (peak + 1) |
| GuestScale.ScaleWithinTwicePeakIff | simgrid/organizer/hpvc.c:413-454 | over every run that leaves no placement under way the scale stays within twice the peak if and only if no process exits on the selected VM between a decision that doubles the scale past the peak and the creation |
| GuestScale.ScaleWithinTwicePeak | simgrid/organizer/hpvc.c:570-658 | so it ends within twice the peak without such an exit |
| GuestScale.ScaleOutrunsPeak | simgrid/organizer/hpvc.c:444-445 | a run in which that happens |
| Protocol.StartInv | simgrid/organizer/hpvc.c:684-700 | the protocol starts in a state that meets the invariant |
| Protocol.StepKeepsInv | simgrid/organizer/hpvc.c:684-752 | every step of every process keeps what ties creator, balancer, tasks, listeners, finalizer and organizer together |
| Protocol.RunKeepsInv | simgrid/organizer/hpvc.c:684-752 | and so does every run |
| ProtocolRuns.FinishComesLast | simgrid/organizer/hpvc.c:697-728 | when any listener has taken "finish" every task has done its last mailbox send |
| ProtocolRuns.BalancerIsAskedNoMore | simgrid/organizer/hpvc.c:730-740 | when the balancer is asked to stop all placement requests have been answered and it is ready |
| ProtocolRuns.OnlyOrganizerIsStuck | simgrid/organizer/hpvc.c:1266-1273 | no process but the organizer is ever left sending to a stopped receiver |
| ProtocolRuns.BlockedUntilKilled | simgrid/organizer/hpvc.c:743-751 | an organizer that sends to a stopped listener stays there until it is killed |
| ProtocolRuns.OrganizerCanBlock | simgrid/organizer/hpvc.c:1266-1273 | a run in which that happens |
| ProtocolRuns.StepsCountDown | simgrid/organizer/hpvc.c:123-278 | every step of another process brings the end nearer by exactly one |
| ProtocolRuns.NoDeadlock | simgrid/organizer/hpvc.c:684-752 | if every work loop ends, some process other than the organizer can take a step as long as steps are left |
| ProtocolRuns.RunsAreBounded | simgrid/organizer/hpvc.c:684-752 | in every run the processes other than the organizer take at most as many steps as there are to take; when these are taken everything has terminated and the organizer is killed |
| ProtocolRuns.CanEndIff | simgrid/organizer/hpvc.c:190-278 | from any state of any run the simulation can terminate, also without any step of the organizer, if and only if the work loop of every process ends; otherwise no run terminates |
| ProtocolRuns.SimulationCanEndIff | simgrid/organizer/hpvc.c:1361-1363 | with the numbers from `main`: if and only if there are no steps, the ratio is 0 or it gives at least one computation |
| Ledger.StepKeepsLedger | simgrid/organizer/hpvc.c:663-671 | every step keeps both properties of every VM in agreement with the processes |
| Ledger.LedgerBalances | simgrid/organizer/hpvc.c:259-271 | in every reachable state "mem" and "net" of a VM are the needs of the processes created there and not yet released, except for one just created and not yet reserved for |
| Ledger.LedgerEndsEmpty | simgrid/organizer/hpvc.c:259-271 | when the simulation is over both are 0 on every VM |
| ResourceNeed.AtoiOfDecimal | simgrid/organizer/hpvc.c:132-139 | a number written with %u and read with atoi is the same number |
| ResourceNeed.AtoiForms | simgrid/organizer/hpvc.c:132-139 | a sign is read, white space before it skipped, and reading stops at the first other character |
| ResourceNeed.DecimalLength | simgrid/organizer/hpvc.c:632-641 | how many characters it takes |
| ResourceNeed.NeedInNumbers | simgrid/organizer/hpvc.c:87-114 | memory grows in proportion to m from 10 on, up to the capacity at RAND_MAX; the net need is the 0.4 or the 0.03 share, by the draw |
| ResourceNeed.SameNeed | simgrid/organizer/hpvc.c:85-142 | a process computes from its arguments exactly the need that was reserved for it |
| Executer.Newest | c/executer/executer.c:274-281 | the last record of a name, or none |
| Executer.Host.AddMetadata | c/executer/executer.c:508-513 | a record is appended within the array, which is reallocated at every fifth record, and none is lost |
| Executer.Host.FindMetadata | c/executer/executer.c:271-281 | the search through the whole list finds the newest record |
| Executer.Host.Request | c/executer/executer.c:425-453 | the destination is the address given, or for "home" the home in the newest record; without one the request is refused |
| Executer.Host.SendVm | c/executer/executer.c:266-393 | the newest record is sent and marked; a VM without one is started, recorded and sent with a fresh history |
| Executer.Handover | c/executer/executer.c:225-255 | after a VM is sent and received, the newest record at the target has the home of the newest one at the source and its history with the target added; other VMs are not affected |
| Teleport.StepKeepsInv | c/executer/executer.c:133-464 | every start, request, departure and arrival keeps all records, VMs under way and requests consistent with the VMs' paths |
| Teleport.NewestRecordIsPath | c/executer/executer.c:248-255 | in every run the newest record where a VM is has exactly the path it took, beginning at its home |
| Teleport.RecordsTellTheTruth | c/executer/executer.c:376-391 | every record anywhere has the first host and a part of the path ending at its host; it is marked up if and only if it is the newest where the VM is, or the first one of a VM started by the teleport that took it away |
| Teleport.StaleRecord | c/executer/executer.c:322-329 | a run that leaves such a record marked up although the VM is elsewhere |
| Teleport.HomeReturns | c/executer/executer.c:428-440 | a request for "home" is possible if and only if the VM is elsewhere, and then the next host it is on is the one it was first started on, whatever happens in between |
| Teleport.AddressIsReached | c/executer/executer.c:430-450 | a request with a plain address is possible if and only if it is that of another host, and then that is the next host the VM is on, whatever happens in between |
| Teleport.FirstAddressIsReached | c/executer/executer.c:430-450 | the same for a VM that was never started |
| Teleport.HomeIsRefused | c/executer/executer.c:431-453 | "home" for a VM that was never started changes nothing |
| Teleport.TeleportArrives | c/executer/executer.c:323-391 | a request taken can always be carried out and extends the path by its destination |
| Registry.Server.FindHost | c/monitor/server.c:222-230 | the first host with the address, or none only if there is none |
| Registry.Server.SetHostUtility | c/monitor/server.c:120-168 | a message that cannot be unpacked changes nothing and returns 1; another updates its host's entry in place or is appended |
| Registry.Server.Serve | c/monitor/server.c:45-58 | after any messages the list is that of the specification |
| Registry.ReportedUpdates | c/monitor/server.c:151-168 | for a known address exactly one entry changes |
| Registry.ReportedAppends | c/monitor/server.c:134-148 | for an unknown one the list grows at its end |
| Registry.OneEntryPerHost | c/monitor/server.c:132-148 | addresses are pairwise distinct and in the order of first reports |
| Registry.RefinesMap | c/monitor/server.c:132-168 | the list refines a map: an entry is the fold of its own host's messages alone |
| Registry.FirstMessageShown | c/monitor/server.c:134-148 | the first message of a host is stored as it is |
| Registry.LastMessageShown | c/monitor/server.c:162-164 | CPU, cores and RAM of an entry are those of the host's last message |
| Registry.RamIsTruncated | c/monitor/server.c:167-168 | the RAM average is eight parts of the reading and one of the stored value, divided by nine and cut off towards zero |
| Registry.GapFromAbove | c/monitor/server.c:167-168 | from above the gap to a constant reading is d / 9^k rounded down |
| Registry.GapFromBelow | c/monitor/server.c:167-168 | from below it is d / 9^k rounded up |
| Registry.RamSettles | c/monitor/server.c:167-168 | so the reading is reached from above exactly when 9^k exceeds the gap, and from below the average stays one short for good |
| Registry.LoadGap | c/monitor/server.c:165-166 | the CPU load's gap shrinks to a ninth each time |
| Registry.ServerLoadSettles | c/monitor/server.c:165-166 | in the server, among other hosts' messages, the gap of the CPU load to a constant reading shrinks to a ninth with each own message |
| Registry.ServerSettles | c/monitor/server.c:132-168 | in the server, among other hosts' messages, the average moves by the host's own messages only |
| Registry.ServerReaches | c/monitor/server.c:132-168 | and ends at the reading, or one below it when it came from below |

## Left out

- Floating-point rounding, the accuracy of `pow` and `log`, and random number generation: reals, an arbitrary function and arbitrary inputs stand for them.
- Widths of ints: rates, counts, sizes and the products in the target rehash are unbounded; overflow of a C int is not modelled.
- SimGrid itself: clock, sleeping, execution and network times; measured times are arbitrary non-negative numbers and failed sends are possible.
- The start-up value DBL_MAX of the two cheapest-cost searches: modelled as "no candidate yet", so a cost of DBL_MAX or above is not covered.
- Loads and reservations that change while the rebalancer scans: its theorems are about frozen loads, as process arrivals are no migrations.
- Machine entries in `set_host_utility` (c/monitor/server.c:170-209): they index the incoming list by the stored position and drop the extended array, so there is no clear intended result.
- Registry.Server.SetHostUtility: does not model messages without an address, on which the comparison of strings is undefined.
- Teleport.StepKeepsInv: a request that would send a VM to the host it is on is not a possible step, because the executer would wait for its own listener forever; a second request while one is under way at a host is not either, because it overwrites the name of the VM to send; and a VM is not started while another host has been asked to send it.
- Teleport.NewestRecordIsPath: rests on the names in the records, as does Teleport.HomeReturns; for a VM started by a message the code frees the name right after it adds the record (c/executer/executer.c:114-116), and what a search finds after that is undefined. The model keeps the name.
- Teleport.TeleportArrives: the handshake before a departure is part of one step, so two executers that open a handshake with each other at the same moment and block are not covered.
- Executer.Host.AddMetadata: each append is one step, although in the code the main thread and the communication actor may append at the same time.
- Failed teleports and VMs that cannot be found end the executer and are no steps; sessions and locks of the virtualization layer are foreign calls.
- PmTable.Table.constructor: requires what the code relies on, a VM count that is a positive multiple of the host count and at most PM_CAPACITY per host; otherwise its loop runs past the last PM.
- GuestScale.ScaleWithinTwicePeak: speaks of states with no placement under way; while one is, the scale may already count the process to come.
- ProtocolRuns.CanEndIff: nothing is promised about scheduling; the organizer could make moves forever while no other process takes a step, and a process whose work loop goes round without a simulator call would not let any other take one.
- Protocol.StepKeepsInv: each process's sleeps and the organizer's decisions are left out; the organizer may begin to move any VM at any time.
- Slow-down statistics, CPU times and expected times of processes: reporting only; a process's need is its memory and its net share.
- The reservation ledger of `simgrid/simgrid-project/hpvc.c`: its random factors travel as `%f` text, which loses digits, so a process may release a slightly different amount than was reserved.
- `c/monitor/monitor.c`, `c/monitor/interface.c`, `c/organizer/organizer.c`, `GetTimeout`, printing, argument parsing, `destroy_master`, scripts and plots.
- Memory management and pointer aliasing: arrays, sequences and copied records; records of PMs are copied and stored back as in the code.

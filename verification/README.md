# Ring, membership, planning and pipeline: a verified model

This project models, in Dafny, the part of the repository that decides who leads the ring, who is a
member of it, how a model's layers are split, when a ring is dead, and how tokens travel through a
pipeline of processes; and it proves what those parts are for. `dafny verify dfyconfig.toml` checks all
of it.

How the model is laid out:

- **Objects are classes.** Each object whose methods change its fields in the source is a class here
  (`RingCoordinator`, `MembershipService`, `RingWatchdog`, `RingHealthMonitor`, `CrossPlatformPool`,
  `Frontend`, `WorkerLoop`, `Socket`, `LineReader`, `EventLog`, `Watch`). Loops are loops. Every method's
  postcondition gives the whole new state as a function of the old one, and the theorems are about
  those functions, over every run: a run is any sequence of operations, and an operation that is not
  enabled changes nothing.
- **Election** (`Election`, `ElectionRoles`): devices in a ring, an unordered network that may lose
  messages; whom the election elects, and which role each device is left in.
- **Membership** (`Capability`, `Lifecycle`, `Membership`, `MembershipRuns`, `MemberHistory`): leases,
  heartbeats, drains, epochs; and each record as what its history of calls makes it.
- **Failure detection** (`Watchdog`, `WatchdogRuns`, `Monitor`, `HealthyRing`): the watchdog alone, its
  verdicts told from its history, composed with membership, and in a ring where every peer answers.
- **Shard planning** (`Sorting`, `Planner`, `Placement`, `PlacementShares`, `AppShards`, `InferPlan`):
  largest-remainder apportionment with its repair loop, the three planners of the repository, and
  what their plans give each node for its memory.
- **Meaning of the split** (`RingForward`, `RingStalls`, `SplitMeaning`): layers are arbitrary functions
  that keep the batch; the ranks run concurrently in any interleaving.
- **Token pipeline** (`Pipeline`, `PipelineNoise`, `Stages`), also on channels that lose, repeat, misroute
  and mix in frames, and its framings (`Sockets`, `Frames`, `Lines`).
- **Pool, log, watch, search** (`Pool`, `PoolRuns`, `PooledPlan`, `PoolOutcome`, `PoolReports`, `Scrub`,
  `LogRing`, `TransferWatch`, `MarkerSearch`).

What the proofs found where the code does not do what a reader would expect. Each has an exact
condition or a concrete input in the table below.

- The election is sure to elect exactly when one device has strictly more usable RAM than all others:
  tied devices swallow each other's messages (`ElectsIffStrictMaximum`).
- An election that has gone quiet leaves the strict maximum leading, but when messages overtake each
  other it can leave another device a candidate for good: it started after the announcement had passed
  it, and a candidate the announcement had yet to reach swallowed its message. That cannot happen if and
  only if RAM falls strictly from device to device around the ring from the maximum on
  (`RolesSettleIffFalling`), nor in a run in which nobody starts again once told (`QuietIsSettled`).
- The monitor never renews the lease of its own node (`OwnLeaseIsNeverRenewed`). In a ring in which
  every peer answers every ping it loses a node if and only if a round comes after that lease has run
  out, and the node it then blames is its own (`AnsweringRingLosesItselfIff`). With the app's figures
  and a round every two seconds that is 66 s after the start, 36 s on a phone (`AppBlamesItself`).
- The generic membership event can disagree with the emitted events (`GenericAgreesIff`).
- `StagePlanner.swift:258-262` promises every node the floor or the ceiling of its entitlement. The
  repair loop behind it can break that by more than one layer (`RepairCanBreakQuota`). `QuotaHoldsIff`
  says, on the shares before the repair, exactly when the bound holds; `ApportionedIsFair` says what
  holds always.
- A rank above 0 that holds one layer ignores what it is sent, because the sending wrapper overwrites
  the receiving one (`FaithfulIffNoSingletons`). A rank with an empty range blocks all ranks that have
  layers, so the ring never stalls if and only if no range is empty, or all are and each rank runs the
  model alone (`EmptyShardStallsTheRing`, `NeverStallsIff`).
- The app's own assignment covers the layers when every profile is known, and may not otherwise
  (`TilesIff`, `MissingProfileCanBreakTiling`). Even with every profile known it can leave a rank without
  layers (`KnownProfilesCanStarveRank`) or with one (`KnownProfilesCanThinRank`);
  `AppSplitComputesIff` says, on the layer count and the memories, exactly when its ring computes the
  model.
- The second memory check of the Python planner cannot refuse what the first lets through, when no peer
  reports negative memory, the overhead is not negative and the weights are above the tolerance
  (`SecondCheckIsRedundant`); `SecondCheckRefusesIff` says when it does, `NegativeMemoryIsRefused` gives
  an input.
- `CrossPlatformPool.swift:109-110` says that a connected peer is a planning member. A draining one is
  not (`ConnectedPlansIff`). A planning member can lack a seat (`RejoinCanLoseSeat`): the planning
  members are seated all through a run if and only if no connection of a node that is not draining
  finds its seat recorded as the node's while the node is not recorded as seated
  (`SeatedThroughoutIff`), and the two seat maps are inverse all through it if and only if every
  connection finds its node unseated or already seated there (`InverseThroughoutIff`).
- The chunked search misses markers when the chunk is shorter than the marker less one
  (`SearchIsExactIff`).

## Model

| member | source | states |
|---|---|---|
| Election.RingCoordinator.constructor | Apps/InferRing/InferRing/Services/RingCoordinator.swift:63-72 | a coordinator starts inactive, with no coordinator known and no ring |
| Election.RingCoordinator.GetSuccessor | Apps/InferRing/InferRing/Services/RingCoordinator.swift:297-305 | the next device around the sorted list, none in a ring of one |
| Election.RingCoordinator.InitiateElection | Apps/InferRing/InferRing/Services/RingCoordinator.swift:114-124 | the device becomes a candidate and sends its own RAM; nothing else changes |
| Election.RingCoordinator.StopFormation | Apps/InferRing/InferRing/Services/RingCoordinator.swift:131-136 | the ring is dropped and the device is inactive, but still knows its coordinator |
| Election.RingCoordinator.BecomeCoordinator | Apps/InferRing/InferRing/Services/RingCoordinator.swift:260-272 | the device stores itself as coordinator and announces itself, without building a ring yet |
| Election.RingCoordinator.BuildRing | Apps/InferRing/InferRing/Services/RingCoordinator.swift:249-258 | the device list rotated to start at the coordinator; no change when the coordinator is unknown |
| Election.RingCoordinator.ProcessElectionMessage | Apps/InferRing/InferRing/Services/RingCoordinator.swift:138-177 | the new fields and the message sent on are those of the handler function the theorems below are about |
| Election.RunIsSafe | Apps/InferRing/InferRing/Services/RingCoordinator.swift:147-177 | inductive invariant of every run: an election message for c on its way to i has passed only devices with less RAM than c |
| Election.ElectionSafety | Apps/InferRing/InferRing/Services/RingCoordinator.swift:138-177 | in every run, with losses and reordering, a coordinator has strictly more RAM than every other device, and all coordinators, stored coordinator IDs and rings name one device |
| Election.OwnReturnIsStrictMax | Apps/InferRing/InferRing/Services/RingCoordinator.swift:161-165 | an election message that came back to its sender proves the sender's strict maximum |
| Election.RingRanks | Apps/InferRing/InferRing/Services/RingCoordinator.swift:249-258 | a ring ranks each device exactly once, the coordinator 0, and the network successor of rank k has rank k+1 modulo n |
| Election.ElectionTraffic | Apps/InferRing/InferRing/Services/RingCoordinator.swift:147-177 | with a strict maximum and no loss, deliveries so far plus messages in flight never exceed 3n per start, so the network empties |
| Election.QuietMeansElected | Apps/InferRing/InferRing/Services/RingCoordinator.swift:147-177 | with a strict maximum and no loss, once some election has started and the network is empty every device stores the maximum as coordinator and has built its ring |
| Election.TieSwallows | Apps/InferRing/InferRing/Services/RingCoordinator.swift:149-160 | with tied maxima a lone election message can always be delivered until it is swallowed |
| Election.ElectsIffStrictMaximum | Apps/InferRing/InferRing/Models/RingModels.swift:34-40 | all loss-free runs that started and went quiet agree on a coordinator if and only if one device has strictly the most RAM |
| ElectionRoles.DeviceIsItsHistory | Apps/InferRing/InferRing/Services/RingCoordinator.swift:114-177 | in every run, with stops, losses and reordering: a device's role is decided by the last step that concerned it, it knows the coordinator last told, and it holds a ring exactly when told of one since it last stopped |
| ElectionRoles.QuietLeaderLeads | Apps/InferRing/InferRing/Services/RingCoordinator.swift:161-177 | with a strict maximum and no loss, once the network is empty the maximum is coordinator, whoever started when, and every other device a follower or a candidate |
| ElectionRoles.QuietIsSettled | Apps/InferRing/InferRing/Services/RingCoordinator.swift:138-177 | if moreover no device starts, or is made to start, once told the coordinator, every other device is a follower |
| ElectionRoles.RolesSettleIffFalling | Apps/InferRing/InferRing/Services/RingCoordinator.swift:138-177 | with starts at any time and messages overtaking: every loss-free election that goes quiet leaves the maximum leading and all others following if and only if RAM falls strictly from device to device around the ring from the maximum |
| ElectionRoles.LoneElection | Apps/InferRing/InferRing/Services/RingCoordinator.swift:138-177 | when only the maximum starts, every state on the way is known: role, coordinator and ring of each device and the one message in flight, through 2n deliveries |
| Membership.MembershipService.constructor | Sources/ShareComputeCore/MembershipService.swift:79-91 | no members, the given epoch, nothing announced |
| Membership.MembershipService.NodeAppeared | Sources/ShareComputeCore/MembershipService.swift:112-156 | whole new state and events: a new or suspended node joins with a lease, a live one is refreshed without one, a draining one is not rescued |
| Membership.MembershipService.HeartbeatSucceeded | Sources/ShareComputeCore/MembershipService.swift:158-174 | clears the miss counter and renews the lease of a planning member only |
| Membership.MembershipService.HeartbeatFailed | Sources/ShareComputeCore/MembershipService.swift:176-181 | counts one more miss and changes nothing else |
| Membership.MembershipService.NodeAnnouncedDrain | Sources/ShareComputeCore/MembershipService.swift:187-193 | a planning member starts draining with one event; anybody else is left alone |
| Membership.MembershipService.ApplyEvent | Sources/ShareComputeCore/MembershipService.swift:197-202 | moves the state as the machine says, and says whether it moved |
| Membership.MembershipService.SweepOne | Sources/ShareComputeCore/MembershipService.swift:214-238 | one member's turn of the tick: drained, unreachable, lapsed or kept |
| Membership.MembershipService.Sweep | Sources/ShareComputeCore/MembershipService.swift:213-239 | the loop over sorted members suspends exactly those with a verdict and emits their evictions in order |
| Membership.MembershipService.Tick | Sources/ShareComputeCore/MembershipService.swift:210-258 | whole new state and event list of a tick |
| Membership.MembershipService.ReissueLeases | Sources/ShareComputeCore/MembershipService.swift:287-297 | whatever the order of the dictionary, every planning member ends with a lease of the current epoch |
| MembershipRuns.StaysAreTruthful | Sources/ShareComputeCore/MembershipService.swift:112-156 | in every run without the generic event, a node's joined, draining and evicted events follow the pattern of stays, and its record is suspended, draining or planning exactly as they say |
| MembershipRuns.JoinsAndEvictionsAlternate | Sources/ShareComputeCore/MembershipService.swift:210-239 | joins and evictions strictly alternate starting with a join, at most one drain a stay, and a stay ends as drained exactly when a drain was announced in it |
| MembershipRuns.GenericAgreesIff | Sources/ShareComputeCore/MembershipService.swift:195-202 | the generic event keeps events and records in agreement exactly when it moves nothing or demotes an elastic member |
| MembershipRuns.MissesAreTrailingFailures | Sources/ShareComputeCore/MembershipService.swift:176-181 | the miss counter is the number of failures since the last success or appearance |
| MembershipRuns.TickEvictsExactly | Sources/ShareComputeCore/MembershipService.swift:213-239 | an eviction with a reason is emitted exactly for the members whose verdict is that reason |
| MembershipRuns.EvictionIsExact | Sources/ShareComputeCore/MembershipService.swift:210-239 | a tick evicts precisely the members that announced a drain, those with threshold trailing failures, and the others whose lease has run out |
| MembershipRuns.LeasesAreCurrent | Sources/ShareComputeCore/MembershipService.swift:262-297 | a planning member always holds its own lease of the current epoch, allowing required stages exactly when its state does |
| MembershipRuns.LeaseCoversWindow | Sources/ShareComputeCore/MembershipService.swift:158-174 | a planning member's lease runs at least a supported window beyond its last success or join |
| MembershipRuns.HealthyMemberSurvives | Sources/ShareComputeCore/MembershipService.swift:210-239 | a member that succeeds inside every lease window, never misses threshold in a row and announces no drain survives every tick |
| MembershipRuns.TickClears | Sources/ShareComputeCore/MembershipService.swift:213-239 | after any tick of a run in which time does not go back nobody is draining and no planning member is overdue or expired |
| MembershipRuns.EpochsAreSpaced | Sources/ShareComputeCore/MembershipService.swift:241-255 | anti-flap over whole runs: epochs begun are the changes announced, and together cost at least a dwell time each |
| MembershipRuns.EpochChangeIsExact | Sources/ShareComputeCore/MembershipService.swift:244-249 | an epoch change names the next epoch, lists exactly the planning set, which differs from the last listed, and leaves each a lease of that epoch issued now |
| MembershipRuns.QuietTickIsSettled | Sources/ShareComputeCore/MembershipService.swift:241-257 | a tick with neither a change nor a deferral leaves the planning set last announced |
| MemberHistory.RecordIsHistory | Sources/ShareComputeCore/MembershipService.swift:112-193 | in every run without the generic event: a planning member is core exactly if its stay began as a declaring desktop, elastic exactly if as a declaring elastic mobile, opportunistic otherwise; its profile, last sign and lease are exactly those of its history |
| MemberHistory.EligibleIffFit | Sources/ShareComputeCore/StagePlanner.swift:155-178 | in every such run a member is eligible exactly when it is in, joined and still declares as able to hold required stages, is trusted enough, is not under duress where that counts, and its lease outlasts the estimate |
| MemberHistory.EpochNewsIsExact | Sources/ShareComputeCore/MembershipService.swift:241-257 | in every run a tick begins the next epoch, or defers it for exactly the time still to pass, precisely when the planning set it leaves is not the one last announced |
| Lifecycle.EventsMean | Sources/ShareComputeCore/NodeState.swift:71-125 | what each event means in each state, by classes of states and events, and that nothing else means anything |
| Lifecycle.DrainIsOneWay | Sources/ShareComputeCore/NodeState.swift:119-125 | no sequence of events leads from draining back to planning but through suspension |
| Lifecycle.RequiredNeedsJoin | Sources/ShareComputeCore/NodeState.swift:79-88 | on every path a node may hold a required stage only if it could from the start or the last event that meant anything was its join for it |
| Watchdog.RingWatchdog.constructor | Sources/ShareComputeCore/RingWatchdog.swift:129-132 | running, with no loss and no attempt |
| Watchdog.RingWatchdog.RecordProgress | Sources/ShareComputeCore/RingWatchdog.swift:169-172 | moves the progress time only while running |
| Watchdog.RingWatchdog.RecordLoss | Sources/ShareComputeCore/RingWatchdog.swift:176-181 | keeps the first loss, only while running |
| Watchdog.RingWatchdog.ReformationSucceeded | Sources/ShareComputeCore/RingWatchdog.swift:189-195 | a rebuild in progress ends in a clean running state |
| Watchdog.RingWatchdog.ReformationUnavailable | Sources/ShareComputeCore/RingWatchdog.swift:204-207 | a rebuild in progress ends as lost at once |
| Watchdog.RingWatchdog.ReformationFailed | Sources/ShareComputeCore/RingWatchdog.swift:215-226 | counts the attempt, then retries with a fresh clock or gives up at the limit |
| Watchdog.RingWatchdog.Consume | Sources/ShareComputeCore/RingWatchdog.swift:229-245 | the fold of the events' losses, drains and evictions only |
| Watchdog.RingWatchdog.Evaluate | Sources/ShareComputeCore/RingWatchdog.swift:247-284 | the new state and the verdict, in all phases |
| Watchdog.RingWatchdog.BeginGeneration | Sources/ShareComputeCore/RingWatchdog.swift:288-301 | confirms an overdue loss first, and admits exactly when still running |
| Watchdog.AttemptsAreBounded | Sources/ShareComputeCore/RingWatchdog.swift:189-226 | running has no attempts, rebuilding fewer than the limit, and the rebuild is for the pending loss |
| Watchdog.TerminalIsFinal | Sources/ShareComputeCore/RingWatchdog.swift:247-251 | nothing changes a lost ring |
| Watchdog.RebuildEnds | Sources/ShareComputeCore/RingWatchdog.swift:247-260 | evaluated at least every d, a ring is never still rebuilding more than limit * (timeout + d) after it began, over any interleaving of reports |
| Watchdog.PendingLossIsConfirmed | Sources/ShareComputeCore/RingWatchdog.swift:266-277 | with no token and no new generation the first evaluation at least the grace time later starts the rebuild for that loss |
| WatchdogRuns.PhasesChangeExactly | Sources/ShareComputeCore/RingWatchdog.swift:183-301 | for every call of every run: a rebuild begins exactly when an evaluation finds a loss overdue, ends with a success, and is given up exactly by an evaluation the timeout after its latest restart, the failure that reaches the limit, or a report that it cannot be done |
| WatchdogRuns.VerdictIsExact | Sources/ShareComputeCore/RingWatchdog.swift:247-284 | every evaluation's answer from the history alone: healthy, stalled since the last sign of life, being rebuilt since the latest restart, or lost; and that it changes nothing unless it confirms or times out |
| WatchdogRuns.AdmittedIff | Sources/ShareComputeCore/RingWatchdog.swift:288-301 | a generation is admitted exactly when the ring runs and no loss is overdue |
| WatchdogRuns.LostIffGivenUp | Sources/ShareComputeCore/RingWatchdog.swift:189-260 | a ring is lost exactly when some call of its run gave it up |
| WatchdogRuns.RebuildHasItsTime | Sources/ShareComputeCore/RingWatchdog.swift:215-260 | a ring is not lost exactly as long as every rebuild is within its timeout, short of its attempts, and not reported impossible |
| Monitor.RingHealthMonitor.constructor | Apps/InferRing/InferRing/Services/RingHealthMonitor.swift:56-70 | a fresh membership and watchdog, healthy, no rebuild |
| Monitor.RingHealthMonitor.PublishLocalProfile | Apps/InferRing/InferRing/Services/RingHealthMonitor.swift:166-169 | the local node appears, when its profile is known |
| Monitor.RingHealthMonitor.ProbeOne | Apps/InferRing/InferRing/Services/RingHealthMonitor.swift:176-191 | one ping's effect on the membership |
| Monitor.RingHealthMonitor.StartReformationIfNeeded | Apps/InferRing/InferRing/Services/RingHealthMonitor.swift:129-162 | at most one rebuild at a time; where none is possible the ring is lost at once |
| Monitor.RingHealthMonitor.RefreshHealth | Apps/InferRing/InferRing/Services/RingHealthMonitor.swift:109-113 | the verdict of the evaluation, and a rebuild launched when it asks for one |
| Monitor.RingHealthMonitor.ProbePeers | Apps/InferRing/InferRing/Services/RingHealthMonitor.swift:171-199 | the whole round: publish, ping each peer, tick, tell the watchdog, refresh |
| Monitor.RingHealthMonitor.PeerAnnouncedDrain | Apps/InferRing/InferRing/Services/RingHealthMonitor.swift:206-210 | a peer's announcement reaches membership and watchdog |
| Monitor.RingHealthMonitor.BeginGeneration | Apps/InferRing/InferRing/Services/RingHealthMonitor.swift:95-99 | admission is the watchdog's |
| Monitor.RingHealthMonitor.RebuildFinished | Apps/InferRing/InferRing/Services/RingHealthMonitor.swift:143-161 | every outcome of the rebuild task is reported and frees the task slot |
| Monitor.DiagnosisIsFirstLoss | Sources/ShareComputeCore/RingWatchdog.swift:174-181 | in every run the diagnosis is the first drain (departed) or eviction (unreachable, unless drained) since the last admitted generation or completed rebuild, and without one the ring runs however long the silence |
| Monitor.BlamedNodeWasLost | Apps/InferRing/InferRing/Services/RingHealthMonitor.swift:193-198 | membership did report the node the watchdog blames |
| Monitor.RebuildsAreOrderly | Apps/InferRing/InferRing/Services/RingHealthMonitor.swift:129-162 | at most one rebuild in progress, none while running, and at most the limit launched for one loss |
| Monitor.MonitorRunsMembership | Apps/InferRing/InferRing/Services/RingHealthMonitor.swift:171-199 | the members of a monitor run are those of the membership run it makes, so every membership theorem applies |
| Monitor.MonitorRunsWatchdog | Apps/InferRing/InferRing/Services/RingHealthMonitor.swift:95-199 | the watchdog of a monitor run is that of the run of watchdog calls it makes, so every watchdog theorem applies |
| Monitor.HealthIsVerdict | Apps/InferRing/InferRing/Services/RingHealthMonitor.swift:95-162 | in every run what the monitor shows is the watchdog's verdict at its last evaluation, and healthy before the first |
| Monitor.SilentPeerIsEvicted | Apps/InferRing/InferRing/Services/RingHealthMonitor.swift:188-193 | threshold failed probes in a row are followed by an eviction in the same round |
| Monitor.SilentPeerIsDetected | Apps/InferRing/InferRing/Services/RingHealthMonitor.swift:193-198 | that round leaves a loss pending, the one already held or else one of its own; it is confirmed by that round if it is due, and otherwise by the first evaluation when it is due |
| Monitor.OwnLeaseIsNeverRenewed | Apps/InferRing/InferRing/Services/RingHealthMonitor.swift:166-176 | over any rounds within one epoch the local node keeps its first lease, and a round evicts it exactly when that lease has run out |
| Monitor.HealthyRingBlamesItself | Apps/InferRing/InferRing/Services/RingHealthMonitor.swift:171-199 | when all other members are in good standing, the first round after that lease records the local node as unreachable, and that loss is confirmed when it is due |
| HealthyRing.RoundCallsAreRound | Apps/InferRing/InferRing/Services/RingHealthMonitor.swift:171-199 | the single calls of a round, in order, do what the monitor's round does |
| HealthyRing.AnsweringRingLosesItselfIff | Apps/InferRing/InferRing/Services/RingHealthMonitor.swift:171-199 | with every peer answering in every round, at any times from the start: a loss is recorded if and only if some round comes after the local lease has run out; it is the local node, at the first such round, and the ring stops running for it one grace time later |
| HealthyRing.AppBlamesItself | Apps/InferRing/InferRing/Services/RingHealthMonitor.swift:55-83 | with the app's figures and a round every two seconds, any number of rounds: no loss before 66 s (36 s on a phone), the local node unreachable then, and the running ring ended by the next round |
| Planner.Apportion | Sources/ShareComputeCore/StagePlanner.swift:267-318 | the in-place loops compute Apportioned, and the guarded break of the repair loop is never taken |
| Planner.Spread | Sources/ShareComputeCore/StagePlanner.swift:275-281 | the even split for rings with no spare capacity |
| Planner.WholeParts | Sources/ShareComputeCore/StagePlanner.swift:283-293 | whole parts, their sum and the exact remainders |
| Planner.HandOut | Sources/ShareComputeCore/StagePlanner.swift:295-305 | the leftover goes to the largest remainders, earlier index first |
| Planner.LeftoverFits | Sources/ShareComputeCore/StagePlanner.swift:297-304 | the leftover is at least 0 and below the number of nodes, so the indexing never fails |
| Planner.HamiltonSums | Sources/ShareComputeCore/StagePlanner.swift:282-305 | the shares before repair sum to the total |
| Planner.HamiltonIsQuota | Sources/ShareComputeCore/StagePlanner.swift:258-262 | before repair each share is the floor or the ceiling of the exact entitlement |
| Planner.HamiltonIsMonotone | Sources/ShareComputeCore/StagePlanner.swift:282-305 | a node of strictly larger weight never gets fewer layers |
| Planner.HamiltonByRemainder | Sources/ShareComputeCore/StagePlanner.swift:295-305 | of two nodes of which only one is rounded up, that one has the larger remainder, or an equal one and the smaller index |
| Planner.RepairFeedsEveryone | Sources/ShareComputeCore/StagePlanner.swift:308-315 | the repair ends with every starved node at exactly 1, every other at least 1 and no more than before, the sum unchanged, and layers taken only from the largest holders |
| Planner.ApportionedIsFair | Sources/ShareComputeCore/StagePlanner.swift:256-318 | the result sums to the total with every share at least 1 and none above max(1, ceiling), and equals the unrepaired shares exactly when none of them is 0 |
| Planner.QuotaHoldsIff | Sources/ShareComputeCore/StagePlanner.swift:256-318 | every share is the floor or the ceiling of its entitlement if and only if, before the repair, the k-th node without layers has some capacity and the k-th donor exists and holds more than its exact entitlement, for each k; donors are the holders of the largest share, then those of one less in front of them all |
| Planner.RepairCanBreakQuota | Sources/ShareComputeCore/StagePlanner.swift:308-315 | a concrete ring where a node entitled to exactly three layers ends with one |
| Placement.LayersCoverWeights | Sources/ShareComputeCore/StagePlanner.swift:25-29 | the rounded-up bytes per layer, over all layers, cover the model's weights |
| PlacementShares.PerLayerIsLeast | Sources/ShareComputeCore/StagePlanner.swift:25-29 | that figure is the least whole number of bytes that does |
| Placement.EligibleFacts | Sources/ShareComputeCore/StagePlanner.swift:155-182 | the eligible members are exactly the members that pass every rule, in node order |
| Placement.Plan | Sources/ShareComputeCore/StagePlanner.swift:184-254 | the loop computes the plan or the first error, and the closing precondition always holds |
| Placement.PlanIsSound | Sources/ShareComputeCore/StagePlanner.swift:184-254 | ranks 0 to k-1 in node order, non-empty adjacent ranges covering exactly the layers, each within its node's memory, together paying for all weights and overheads |
| Placement.PlanIgnoresOrder | Sources/ShareComputeCore/StagePlanner.swift:180-181 | any permutation of members with distinct node IDs gives the same plan or the same error |
| PlacementShares.PlanFailsIff | Sources/ShareComputeCore/StagePlanner.swift:196-231 | which of the four errors there is, with its figures, and when there is a plan, on the eligible members' spare memories: CannotFit names the first node in order that cannot hold its apportioned share |
| PlacementShares.PlanWidths | Sources/ShareComputeCore/StagePlanner.swift:204-241 | rank i's layers are the i-th share of the apportionment of the layers by spare memory |
| PlacementShares.PlanIsProportional | Sources/ShareComputeCore/StagePlanner.swift:204-246 | each range has at least one layer and less than one more than its proportional share; all are that share rounded down or up exactly under QuotaHoldsIff's condition; without repair more spare memory never gets fewer layers, and larger remainders are rounded up first |
| PlacementShares.PlanIsEven | Sources/ShareComputeCore/StagePlanner.swift:275-281 | when no eligible node has memory to spare, a plan deals the layers evenly, the first nodes one more |
| AppShards.AssignShardMetadata | Apps/InferRing/InferRing/Services/ModelManager.swift:626-652 | the loop computes the ranges, or fails when no profile is known |
| AppShards.TilesIff | Apps/InferRing/InferRing/Services/ModelManager.swift:637-650 | the ranges tile the layers exactly when the shares of all ranks but the last do not exceed them |
| AppShards.KnownProfilesTile | Apps/InferRing/InferRing/Services/ModelManager.swift:637-650 | with every profile known they always tile |
| AppShards.MissingProfileCanBreakTiling | Apps/InferRing/InferRing/Services/ModelManager.swift:638-639 | a concrete ring with a missing profile where they do not |
| RingForward.PipelineAutoParallel | Apps/InferRing/Ring/AutoParallel.swift:18-59 | the clamped, wrapped layer list, with its early returns and overwrites |
| RingForward.WrappedProgram | Apps/InferRing/Ring/AutoParallel.swift:83-143 | calling a wrapped shard receives (above rank 0, with two or more layers), applies its layers, sends on (below the last rank), posts and gathers |
| RingForward.RanksAgree | Apps/InferRing/Ring/AutoParallel.swift:129-142 | in any interleaving every rank that finishes returns the last rank's output |
| RingForward.RingProgresses | Apps/InferRing/Ring/AutoParallel.swift:83-143 | until every rank has finished some rank can act |
| RingForward.SplitComputesTheModel | Apps/InferRing/Ring/AutoParallel.swift:36-56 | with two or more layers above rank 0, every rank returns the fold of all layers in order |
| RingForward.FaithfulIffNoSingletons | Apps/InferRing/Ring/AutoParallel.swift:49-51 | with shards of these sizes every rank that finishes, in any interleaving, returns what the unsplit model computes, for all models and inputs, if and only if no rank above 0 has a single layer |
| RingStalls.EmptyShardStallsTheRing | Apps/InferRing/Ring/AutoParallel.swift:40-43 | a rank whose clamped range is empty, whatever its start and end, keeps every rank with layers from ever finishing |
| RingStalls.EmptyShardRunsTheModel | Apps/InferRing/Ring/AutoParallel.swift:40-43 | a rank whose clamped range is empty runs the whole model on its own, in any interleaving |
| RingStalls.NeverStallsIff | Apps/InferRing/Ring/AutoParallel.swift:36-56 | for any ranges, in or out of order: some rank can act until all have finished, in every interleaving, if and only if no clamped range is empty or all are |
| SplitMeaning.CoverComputesTheModel | Apps/InferRing/Ring/AutoParallel.swift:36-56 | any cover of the layers with two or more layers above rank 0, wrapped and run in any interleaving, computes the unsplit model on every rank |
| SplitMeaning.PlansCover | Sources/ShareComputeCore/StagePlanner.swift:213-246 | the planner's ranges are such covers |
| SplitMeaning.MetasCoverIff | Apps/InferRing/InferRing/Services/ModelManager.swift:633-650 | on the layer count and memories, known or not: the app's ranges are such a cover if and only if every share before the last and the last remainder are at least one layer |
| SplitMeaning.AppSplitComputesIff | Apps/InferRing/InferRing/Services/ModelManager.swift:633-650 | wrapped and run, the app's ranges never stall and compute every model on every rank if and only if the model has no layers, the ring has one device, or rank 0's share is at least 1, every middle share at least 2 and the last remainder at least 2 |
| SplitMeaning.KnownProfilesCanStarveRank | Apps/InferRing/InferRing/Services/ModelManager.swift:633-650 | memories 1, 1, 32 and four layers: all profiles known, rank 0 gets an empty range, and the ring does not compute the model |
| SplitMeaning.KnownProfilesCanThinRank | Apps/InferRing/InferRing/Services/ModelManager.swift:633-650 | memories 8, 1 and nine layers: all profiles known, rank 1 gets one layer, and the ring does not compute the model |
| InferPlan.PlanShards | scripts/four_platform_pool_lib.py:95-107 | the cursor loop deals the apportioned layers out in rank order, and its closing assertion holds |
| InferPlan.PlanInferShards | scripts/inference_pipeline_lib.py:185-240 | a plan is returned exactly when all five demands are met, and each error says that its demand fails and that the demands before it hold |
| InferPlan.InferPlanIsSound | scripts/inference_pipeline_lib.py:191-240 | frontend at rank 0, workers in platform order, each peer with a role exactly once, non-empty adjacent ranges covering the layers, each shard within its peer's memory, estimates summing to all weights and overheads |
| InferPlan.InferPlanIsProportional | scripts/inference_pipeline_lib.py:217-240 | each peer of an accepted plan gets at least one layer and less than one more than its share by whole mebibytes left after its overhead; rounded down or up for all exactly under QuotaHoldsIff's condition; without repair never fewer for more memory |
| InferPlan.SecondCheckIsRedundant | scripts/inference_pipeline_lib.py:202-216 | with no negative memory or overhead and weights above the tolerance, the aggregate check never refuses what the capacity check passed |
| InferPlan.SecondCheckRefusesIff | scripts/inference_pipeline_lib.py:202-216 | for any figures that pass the capacity check, the aggregate check refuses exactly when what is set aside for overheads and what is spare beyond the weights are together less than one overhead; with no negative figure that takes a pool with nothing to spare |
| InferPlan.NegativeMemoryIsRefused | scripts/inference_pipeline_lib.py:202-216 | two peers, one reporting negative memory, that pass the first check and fail the second |
| Pipeline.BufferBudget | scripts/inference_pipeline_lib.py:380-387 | between one and eight activation slots for any estimate |
| PipelineNoise.BudgetIsShare | scripts/inference_pipeline_lib.py:380-387 | one activation slot for each whole gigabyte, but at least one and at most eight |
| Pipeline.Frontend.constructor | scripts/inference_pipeline_peer.py:255-256 | the frontend starts at token 0 with the prompt's seed |
| Pipeline.Frontend.Send | scripts/inference_pipeline_peer.py:258-264 | sends token tid computed from its seed, and prepares the next seed; or stops over budget |
| Pipeline.Frontend.Accept | scripts/inference_pipeline_peer.py:276-299 | accepts exactly the awaited result, each mismatch being its own failure |
| Pipeline.WorkerLoop.constructor | scripts/inference_pipeline_peer.py:345 | a worker starts with nothing processed |
| Pipeline.WorkerLoop.Receive | scripts/inference_pipeline_peer.py:352-371 | accepts a frame of its epoch from the rank before it, within its budget |
| Pipeline.WorkerLoop.Send | scripts/inference_pipeline_peer.py:372-383 | computes, checks the budget, sends to the next rank or back to the frontend, and counts |
| Pipeline.PipelineIsCorrect | scripts/inference_pipeline_peer.py:255-304 | in every interleaving no error is reached, worker counts fall along the ring between completed and completed+1, every accepted result is the composition of all stages on its seed, and done means everybody processed every token |
| Pipeline.OneTokenInFlight | scripts/inference_pipeline_peer.py:257-299 | exactly one token is in flight while the frontend waits, none otherwise |
| Pipeline.PipelineProgresses | scripts/inference_pipeline_peer.py:346-386 | until done exactly one step is possible, and done is reached exactly after 2R steps a token and one more |
| PipelineNoise.WorkerHoldsIff | scripts/inference_pipeline_peer.py:352-371 | for any frame, a worker holds it exactly when size, epoch and ranks match, and each mismatch is its own failure |
| PipelineNoise.FrontAcceptsIff | scripts/inference_pipeline_peer.py:276-299 | for any frame, the frontend accepts it exactly when size, epoch, token and ranks match, and each mismatch is its own failure |
| PipelineNoise.SendsIffWithinBudget | scripts/inference_pipeline_peer.py:258-264 | a result is sent exactly when it fits the sender's own budget, and otherwise the sender stops and sends nothing |
| PipelineNoise.NoiseIsNeverAccepted | scripts/inference_pipeline_peer.py:255-386 | whatever the channels lose, repeat, reorder, misroute or mix in from other epochs: every accepted result is the composition of all stages on its token's seed, in order, workers compute only on frames sent to them, nobody sends over budget, and done means all results |
| PipelineNoise.TokensHaveOwnPrompts | scripts/inference_pipeline_peer.py:263 | no two tokens share a prompt, since a token's number is written in full |
| Stages.FakeCompute | scripts/inference_pipeline_lib.py:358-368 | the in-place fold computes Computed, which keeps the payload's length |
| Stages.StageMixes | scripts/inference_pipeline_lib.py:358-368 | on a payload of any length but none, each byte has exactly those digest bytes folded in that fall on its place, and the first also rank and token added |
| Stages.StageChangesTheFront | scripts/inference_pipeline_lib.py:358-368 | a stage changes the first 32 bytes only, each by its digest byte, and adds rank and token to the first |
| Stages.MakePromptActivation | scripts/inference_pipeline_lib.py:371-377 | the growing buffer ends as exactly the requested number of bytes |
| Stages.PromptIsHashChain | scripts/inference_pipeline_lib.py:371-377 | byte i of a prompt's activation is byte i mod 32 of the (i/32)-th link of the hash chain |
| Stages.PlannedPipelineIsCorrect | scripts/inference_pipeline_peer.py:255-304 | any accepted plan of two or more peers gives a pipeline with these properties: no error, the worker counts in order, correct results, one token in flight, exactly one step possible until done, and done after 2R steps a token and one more |
| Sockets.Socket.Recv | scripts/inference_pipeline_lib.py:310-316 | a non-empty prefix of what is coming, however it was cut, or nothing on silence and at the end |
| Sockets.Socket.RecvExact | scripts/inference_pipeline_lib.py:304-317 | exactly the next n bytes, if and only if they come before the next silence |
| Frames.RecvActivation | scripts/inference_pipeline_lib.py:320-351 | however the stream is cut, the result is Decode of its bytes and exactly that frame is consumed |
| Frames.FrameRoundTrip | scripts/inference_pipeline_lib.py:288-301 | an encoded message is read back exactly when its payload is within both limits, and refused with the right error otherwise |
| Frames.OnlyFramesDecode | scripts/inference_pipeline_lib.py:320-351 | any bytes read as a message are that message's own frame, up to the unused header word |
| Frames.DecodeIsExact | scripts/inference_pipeline_lib.py:320-351 | which bytes are refused and why, in order; which are a message, and its fields; and when the stream counts as closed |
| Frames.StreamRoundTrip | scripts/inference_pipeline_lib.py:288-351 | as one byte string, the concatenated frames of any in-range messages parse back to exactly those messages, then to whatever follows |
| Frames.ReceiveAll | scripts/inference_pipeline_peer.py:346-371 | reading frame after frame from a socket, however the stream is cut, gives the messages that decoding its bytes gives |
| Frames.AnyCuttingIsRead | scripts/inference_pipeline_lib.py:288-351 | for every way of cutting the encoding of in-range messages into chunks, those are exactly the messages sent, and nothing is left over |
| Frames.CutFrameIsClosed | scripts/inference_pipeline_lib.py:331-350 | a frame cut short anywhere is never read as a message |
| Frames.CutStreamDeliversWholeFrames | scripts/inference_pipeline_lib.py:320-351 | a stream that ends anywhere has delivered exactly the messages whose frames arrived whole |
| Lines.LineReader.constructor | scripts/four_platform_pool_lib.py:116 | the buffer starts empty |
| Lines.LineReader.RecvLine | scripts/four_platform_pool_lib.py:116-134 | the next non-blank line of buffer and stream together, however cut; on silence no line is lost and later calls see the same lines |
| Lines.LineReader.RecvAllLines | scripts/four_platform_pool_lib.py:116-134 | called until the stream has ended, however it was cut and however often it fell silent, it returns all lines of buffer and stream, and leaves their remainder |
| Lines.LinesResume | scripts/four_platform_pool_lib.py:116-134 | reading may stop anywhere in a stream and resume without changing the lines or the remainder |
| Lines.LinesRoundTrip | scripts/four_platform_pool_lib.py:110-113 | as one byte string, lines sent are the lines received, in order, before anything sent later |
| Lines.AnyTextIsRead | scripts/four_platform_pool_lib.py:116-134 | of any byte string, read are exactly its newline-ended texts that are not blank, stripped and in order, and the rest is left |
| Lines.StripIs | scripts/four_platform_pool_lib.py:120 | stripping takes off all white space at both ends and nothing else |
| Pool.CrossPlatformPool.constructor | Sources/ShareComputeCore/CrossPlatformPool.swift:48-65 | an empty pool over a fresh membership |
| Pool.CrossPlatformPool.Connect | Sources/ShareComputeCore/CrossPlatformPool.swift:94-130 | whole new state and events: the previous occupant is drained and unseated, the newcomer appears and is seated |
| Pool.CrossPlatformPool.HeartbeatSucceeded | Sources/ShareComputeCore/CrossPlatformPool.swift:152-155 | the membership's effect, seats unchanged |
| Pool.CrossPlatformPool.HeartbeatFailed | Sources/ShareComputeCore/CrossPlatformPool.swift:157-159 | the membership's effect, seats unchanged |
| Pool.CrossPlatformPool.AnnounceDrain | Sources/ShareComputeCore/CrossPlatformPool.swift:162-174 | the membership's effect, reported only for a seated node; the seat stays until the tick |
| Pool.CrossPlatformPool.Tick | Sources/ShareComputeCore/CrossPlatformPool.swift:177-203 | the membership ticks, and every evicted node's seat is vacated in event order |
| Pool.CrossPlatformPool.Mirror | Sources/ShareComputeCore/CrossPlatformPool.swift:182-200 | one event's effect on the seats and its report |
| Pool.CrossPlatformPool.PlanRAMPool | Sources/ShareComputeCore/CrossPlatformPool.swift:211-253 | the plan, its refusals and its errors as one function of the state |
| PoolRuns.ConnectKeepsInverseIff | Sources/ShareComputeCore/CrossPlatformPool.swift:100-113 | connecting keeps the two seat maps inverse exactly when the node holds no other platform's seat |
| PoolRuns.ConnectUnseatsIff | Sources/ShareComputeCore/CrossPlatformPool.swift:100-113 | a connection leaves its own node unseated exactly when that platform's seat is recorded as the node's and the node is not recorded as seated |
| PoolRuns.SeatedThroughoutIff | Sources/ShareComputeCore/CrossPlatformPool.swift:94-203 | the planning members are seated all through a run if and only if no connection of a node that is not draining finds such a seat |
| PoolRuns.InverseThroughoutIff | Sources/ShareComputeCore/CrossPlatformPool.swift:94-203 | the seat maps are inverse all through a run if and only if every connection finds its node unseated or already seated at that platform |
| PoolRuns.SeatedAreNotSuspended | Sources/ShareComputeCore/CrossPlatformPool.swift:94-203 | in every run nobody suspended is seated, and every record is kept under its own node's ID |
| PoolRuns.PlanningMembersAreSeated | Sources/ShareComputeCore/CrossPlatformPool.swift:94-203 | if every connection finds its node unseated or already seated at that platform, in every run the seat maps are inverse, every planning member is seated, and nobody suspended is |
| PoolRuns.OneHomeIsWelcome | Sources/ShareComputeCore/CrossPlatformPool.swift:94-130 | if each node always joins under one platform, every connection finds it so, and a seated node is seated at that platform |
| PoolRuns.NoSeatIsShared | Sources/ShareComputeCore/CrossPlatformPool.swift:100-113 | in every run, guarded or not, no two nodes ever hold the same seat |
| PoolRuns.RejoinCanLoseSeat | Sources/ShareComputeCore/CrossPlatformPool.swift:106-113 | a run of five calls, for any two nodes, that ends with a planning member without a seat |
| PoolRuns.ConnectedPlansIff | Sources/ShareComputeCore/CrossPlatformPool.swift:109-119 | a connected peer is a planning member exactly when it was not draining |
| PoolReports.ConnectionReports | Sources/ShareComputeCore/CrossPlatformPool.swift:94-130 | a connection reports present exactly when the seat was recorded as the node's and connected otherwise, and all platforms exactly when every one is seated |
| PoolReports.DrainReports | Sources/ShareComputeCore/CrossPlatformPool.swift:162-174 | a drain is reported exactly when a planning member announces it from a seat, with that seat |
| PoolReports.TickReports | Sources/ShareComputeCore/CrossPlatformPool.swift:177-203 | in every run a tick reports an eviction exactly for each seated member with a verdict, with its seat and reason, and epochs and deferrals exactly as the membership gave them |
| PooledPlan.PooledPlanIsWhole | Sources/ShareComputeCore/CrossPlatformPool.swift:211-253 | in every run in which no connection finds such a seat, a returned plan has exactly four shards, one a platform, at the current epoch, for the planning set last announced; they cover the layers and the pooled memory pays for all of it |
| PoolOutcome.PoolRunsMembership | Sources/ShareComputeCore/CrossPlatformPool.swift:94-253 | the members of a pool run are those of the membership run it makes, so every membership theorem applies |
| PoolOutcome.DeferredIffUnannounced | Sources/ShareComputeCore/CrossPlatformPool.swift:222-228 | a tick reports a deferral exactly when it leaves a planning set not yet announced |
| PoolOutcome.PoolPlansIff | Sources/ShareComputeCore/CrossPlatformPool.swift:211-253 | in every run: a plan is returned exactly when every platform is seated before and after the tick, the planning set is the one announced, the planner accepts it, and every seat's node is an eligible member; its error exactly when the planner refuses under the same guards; otherwise nothing |
| PoolOutcome.ReadyIffFit | Sources/ShareComputeCore/CrossPlatformPool.swift:239-246 | in every run a platform's seat is ready exactly when its node knows it, is in, and is fit for required stages on what it published |
| PoolOutcome.PooledMemoryIsExact | Sources/ShareComputeCore/CrossPlatformPool.swift:248-252 | when no connection has cost a member its seat, the memory a plan reports is that of the four seated nodes, each once |
| Scrub.ScrubText | Apps/ComputeWorker/Sources/EventLog.swift:254-279 | the scanning loop computes Scrubbed |
| Scrub.ScrubIsSound | Apps/ComputeWorker/Sources/EventLog.swift:250-279 | no output has 64 hex digits in a row or a pairing code; output equals input exactly when the input had neither; scrubbing is idempotent |
| Scrub.AlphabetsAre | Apps/ComputeWorker/Sources/EventLog.swift:256-274 | the two alphabets, the prefix looked for and the marks written, character by character |
| Scrub.ScrubIsLocal | Apps/ComputeWorker/Sources/EventLog.swift:266-277 | text on either side of a separating byte is scrubbed by itself |
| Scrub.TokenIsReplaced | Apps/ComputeWorker/Sources/EventLog.swift:271-275 | a token between clean texts is replaced by its mark and nothing else changes |
| LogRing.EventLog.constructor | Apps/ComputeWorker/Sources/EventLog.swift:93-105 | an empty ring |
| LogRing.EventLog.Record | Apps/ComputeWorker/Sources/EventLog.swift:163-169 | the byte count stays exact and the ring is the longest fitting tail of the old ring and the new line |
| LogRing.RingIsLongestTail | Apps/ComputeWorker/Sources/EventLog.swift:163-169 | in every run the ring is the longest tail of all lines ever recorded that stays within both limits |
| LogRing.NewestLineIsKept | Apps/ComputeWorker/Sources/EventLog.swift:167-169 | the line just recorded is kept, unless it alone is too long, which empties the ring |
| TransferWatch.Watch.constructor | scripts/run_log.py:240-241 | no counter seen |
| TransferWatch.Watch.Observe | scripts/run_log.py:243-254 | one counter's item changes, the others stay |
| TransferWatch.Watch.Spans | scripts/run_log.py:256-276 | one entry per counter that moved, sorted by start, or the missing edge |
| TransferWatch.ItemIsChangesSinceReset | scripts/run_log.py:243-254 | an item is exactly the values at the latest reset, the last values, the longest gap, and one point for each change since that reset |
| TransferWatch.PointsRise | scripts/run_log.py:249-253 | points rise strictly from above zero with non-falling times, and the last is the gain since the latest reset |
| TransferWatch.SpanIsSound | scripts/run_log.py:256-276 | both edges are found exactly when neither share exceeds one; with low at most high it begins before it ends, clamped or not; and 0 < first step <= total |
| TransferWatch.SpanIsExact | scripts/run_log.py:256-276 | every field of an entry from the counter's samples: both edges with the limit, the longest silence, the step at the first edge and its share, and each value's movement since the latest reset |
| TransferWatch.ReportIsInOrder | scripts/run_log.py:256-276 | one entry for each counter that moved, sorted by start, those that began together in the order first seen |
| Sorting.SortIsStable | scripts/run_log.py:276 | sorting keeps elements that tie in the order they had |
| TransferWatch.CountersAreIndependent | scripts/run_log.py:243-248 | in every run each counter's item is what its own samples make it |
| TransferWatch.SpansFailIff | scripts/run_log.py:262-268 | reporting fails exactly when some counter moved and a share exceeds one |
| MarkerSearch.FileContainsMarker | scripts/portable_dual_topology_rpc.py:54-67 | the chunked loop computes Scan |
| MarkerSearch.SearchIsExactIff | scripts/portable_dual_topology_rpc.py:54-67 | right about every file if and only if a chunk is at least one byte and at least the marker's length less one; never a false find |
| MarkerSearch.EmptyMarker | scripts/portable_dual_topology_rpc.py:57-64 | an empty marker is found in every non-empty file |

## Left out

- Election: device discovery, profile caching and requests for missing profiles; the retries before sending and the fall back to inactive when there is no successor; the membership of the ring is fixed and every device holds the same list.
- Election: starting and synchronising the tensor runtime after an announcement.
- Times are reals and shares are exact integers or rationals: floating-point rounding is not modelled, nor is the clock's drift. One clock reading serves a whole call of the monitor.
- Node IDs, platforms of the Python planner and device IDs are numbers in their own order; only order and equality of the source's strings are used.
- The stability score of a lease, its identifier, and renewals through Lease.renewed; nothing decides on them.
- Monitor: the probe loop's sleep, app lifecycle notifications, and what a rebuild does; its outcome is a parameter. The local profile, once known, stays the same through a run.
- HealthyRing.AnsweringRingLosesItselfIff: covers one formed ring, whose peers and their profiles are fixed when it is built (RingModels.swift:54-57); a monitor that lives on into a ring of other peers is not covered by it, but is by the theorems over all runs.
- Epoch numbers are unbounded; the source's 64-bit counter is not exhausted by one increment a dwell time.
- RingForward: the key-value cache, the cast of the last layer's output for one model family, tensor parallelism, and the tensor shapes beyond the batch; layers are functions that keep the batch.
- Pipeline: timeouts, broken connections and the early shutdown message are not steps of the pipeline model; the single-seat branch, which sends nothing, is left out.
- Frames: UTF-8, SHA-256 and JSON are parameters, assumed only to decode what they encode; the round trips do not cover epochs that cannot be encoded, nor numbers that do not fit their header field, on which the source raises.
- Pool: messages mirrored onto a transport and the simulated peers.
- LogRing: the file behind the ring, its rotation, and the formatting of a line.
- TransferWatch.Watch.Spans: requires that each counter's stored points are well formed, which every run of Observe gives (SpansFailIff); figures are not rounded.
- Capability: which states, trust levels and stages exist is data, written out as it is.
- Sockets, TLS, threads, HTTP handlers, discovery, subprocess orchestration, user interface, model downloads: plumbing over libraries that are not part of this model.

# Redkey Robin: a verified model of its repair, upgrade, scaling and configuration decisions

Robin watches one Redis Cluster on Kubernetes and repairs it, upgrades it, scales it and applies queued
configurations. Most of its code issues commands; between the commands it decides, from one view of the cluster,
what to do next. This project models those decisions over a slot space of 16384 slots (Redis Cluster
specification, section "Key distribution model") and proves what single passes compute and what runs of passes
keep and reach. `dafny verify dfyconfig.toml` checks everything.

## How the model is built

Each decision is a method with the branches and loops of the Go function it models, proved against a
specification. Objects whose fields the source updates are classes (`RollingUpgrade.Reconciler`,
`SlotAssignment.Formation`, `ScaleUpRoles.Replication`, `ScaleDownRoles.Fleet`, `ConfigQueue.Queue`). A Redis or
Kubernetes command enters through what it does once it takes effect; whether it takes effect, or how much of it,
is an input. Where Go leaves an order open (map iteration, an unstable sort, gossip order of entries) the
specification leaves it open too. Main theorems speak about every run, that is every sequence of states in which
each state follows from the one before by one pass under any inputs.

| files | subject |
|---|---|
| `Lists`, `Tokens`, `ClusterView` | list functions, text splitting and Go's `Atoi`, one line of CLUSTER NODES |
| `SlotRanges`, `Coverage` | the slot column and its readers; the two coverage checks |
| `SlotAssignment`, `MissingSlots`, `OwnerDisputes` | handing out slots at formation, filling gaps, settling disputed owners |
| `SlotsAfter` | what the coverage and balance checks say once slots were handed out |
| `ReplicaTopology`, `TopologyCounting`, `TopologyConvergence`, `RepairRuns` | the replica topology check, its repair, and what runs of repair reach |
| `PlanMeaning` | the topology check and the repair plans, entry by entry |
| `RepairProgress`, `RepairExists` | repair passes that are cut short, and that repair can be carried out |
| `Membership`, `HealingRuns` | forgetting and meeting nodes, and what runs of it keep |
| `Ordinals`, `RollingUpgrade`, `UpgradeRuns` | the rolling N+1 upgrade |
| `UpgradeDeletes`, `UpgradeGates` | which pods the upgrade deletes, and when each of its phases ends |
| `ScaleUpRoles`, `ScaleDownRoles` | roles when the cluster grows and shrinks |
| `ConfigQueue` | selection, superseding and phases of configurations |

## Where the code does less than its comments say

- The excess-primaries repair is said always to converge (health_reconciler.go:923-935). It does so exactly when
  there are not too many primaries, or enough of them own slots, or the slot owners lack at least as many replicas
  as there are primaries too many (`RepairRuns.RepairConverges`). One owner of all slots with its replica and two
  empty primaries never reaches two primaries with one replica each (`RepairRuns.StuckForever`). It is the gate of
  the scaling and upgrade flows that is stuck there, as it runs nothing but this repair
  (health_reconciler.go:894-920); the steady-state reconcile goes on to the rebalance
  (health_reconciler.go:134-163), which gives slots to the empty primaries.
- The two owner resolvers share a rule in their comments (highest epoch, then votes), but the one-pass vote never
  lets votes decide. They agree exactly when the first claimant of the highest epoch has strictly more votes,
  counting its claims of every epoch, than every other claimant of that epoch (`OwnerDisputes.ResolversAgree`,
  `OwnerDisputes.ResolversDiffer`).
- Scale-down chooses whom to keep by role, but the StatefulSet then keeps the lowest ordinals. No slot is lost
  exactly when every kept primary that owns slots sits below the target ordinal
  (`ScaleDownRoles.Fleet.HandleScalingDown`), and all kept primaries survive exactly when at least as many primaries
  sit there as were kept (`ScaleDownRoles.KeptPrimariesSurvive`). When the drain leaves every kept primary with
  slots, the roles and ordinals before the call decide (`ScaleDownRoles.ShrinkDecidedBefore`); after a failover a
  kept slot owner can be deleted, and slots are lost (`ScaleDownRoles.ShrinkTakesKeeper`).
- The lenient slot reader is said to split like `strings.Fields`, but splits at spaces and tabs only. On a piece
  between blanks that the strict reader accepts, the counts agree exactly when the piece holds a single strict
  token, and no dash or no separator (`SlotRanges.PieceCountsAgree`); two numbers joined by a comma are an example
  where they do not (`SlotRanges.CountsDisagreeOnCommas`). Robin's client never builds such a column: it joins the
  fields of a line by single spaces (client.go:197-216), and Redis emits no commas, so that the readers agree on
  every column it reads (`SlotRanges.ClientColumnsAgree`).
- The initial assignment skips primaries that own slots, whatever they own, and only asks that the other shares are
  free. It then covers all slots exactly when the holders together held their own shares
  (`SlotsAfter.AssignmentCovers`); with two primaries of which one holds slot 0 alone, it completes and does not
  (`SlotsAfter.AssignmentUncovered`).
- A pod is said to be deleted at most once per partition (upgrade_reconciler.go:605-613). While a deleted pod still
  terminates on the outdated template, the handler issues the delete again, on a persistent cluster after a reset
  (`UpgradeDeletes.DeleteRepeats`). No pod is deleted twice in a run exactly when no cycle deletes a pod that
  terminates already (`UpgradeDeletes.IssuedOnceExactly`); the second delete has no effect
  (`UpgradeDeletes.IssueExact`, `UpgradeRuns.DeletedOnce`).
- The substatus is said to be observational (cluster_reconciler.go:698-699), but the rolling upgrade dispatches on
  it (upgrade_reconciler.go:265-280). The model follows the dispatch, with writes that may be lost.

## Model

| member | source | states |
|---|---|---|
| `SlotRanges.ParseSlotToken` | internal/redis/slot_ranges.go:42-77 | a token that is accepted is a range of non-negative bounds in order that fit a machine integer |
| `SlotRanges.ParseSlotRanges` | internal/redis/slot_ranges.go:21-40 | reads each token split at white space and commas, or fails if any token is not a range |
| `SlotRanges.CountSlots` | internal/redis/slot_ranges.go:80-86 | the sum of the range sizes |
| `SlotRanges.SplitFields` | internal/redis/cluster_reshard.go:131-148 | the maximal pieces without space or tab, in order |
| `SlotRanges.CutString` | internal/redis/cluster_reshard.go:151-158 | splits at the first occurrence of the separator, if there is one |
| `SlotRanges.CountSlotsFromRanges` | internal/redis/cluster_reshard.go:77-101 | the lenient count: markers skipped, every other dashless token one slot, unreadable ranges nothing |
| `SlotRanges.ParseOpenSlots` | internal/redis/cluster_reshard.go:106-128 | the slot numbers of the markers, in order |
| `SlotRanges.CountsAgree` | internal/redis/cluster_reshard.go:77-101 | on every column the strict reader accepts whose separators are spaces and tabs, both readers count the same |
| `SlotRanges.PieceCountsAgree` | internal/redis/cluster_reshard.go:77-148 | on a piece between blanks that the strict reader accepts, the counts agree exactly when it is one strict token, and has no dash or no separator |
| `SlotRanges.GapValue` | internal/redis/cluster_reshard.go:77-148 | by how much the counts differ on a piece: one less the number of tokens without a dash, minus the whole strict count where a dash meets a separator, else nothing |
| `SlotRanges.GapsAdd` | internal/redis/cluster_reshard.go:77-148 | on any column the strict reader accepts, the counts differ by the sum of the differences on its pieces, each zero exactly for such pieces |
| `SlotRanges.MarkedCountsAgree` | internal/redis/cluster_reshard.go:77-101 | on every column whose separators are blanks, the lenient count is the strict count of what is left without the markers, if that is readable |
| `SlotRanges.ClientColumnsAgree` | internal/redis/client.go:197-216 | the same for every column that the client cuts out of a line without commas |
| `SlotRanges.CountsDisagreeOnCommas` | internal/redis/cluster_reshard.go:130-148 | two numbers joined by a comma are two slots for the strict reader and one for the lenient one |
| `SlotRanges.RenderedColumnReads` | internal/redis/slot_ranges.go:21-86 | reading undoes writing for every list of ranges and markers: the ranges, the count and the marked slots come back |
| `Coverage.SlotsCovered` | internal/health/checker.go:330-369 | true exactly when all primaries' columns are readable, every slot lies in exactly one range and nothing lies outside |
| `Coverage.SlotsFullyCovered` | internal/redis/client.go:403-434 | true exactly when every slot is named by a readable unbracketed token of some primary |
| `Coverage.OnlyStableCounts` | internal/redis/client.go:409-414 | on columns as they are written, a slot is covered exactly when a stable range of a primary holds it; a slot in flight does not count |
| `Coverage.FullMeansStable` | internal/redis/client.go:403-434 | the bitmap check asks exactly that every slot lies in a stable range of some primary |
| `Coverage.MalformedNamesNothing` | internal/redis/client.go:415-421 | a token with a piece that cannot be read names no slot |
| `Coverage.MarkerFailsSweep` | internal/health/checker.go:330-341 | the sweep fails while a primary shows a slot in flight |
| `Coverage.TilesIffExact` | internal/health/checker.go:343-368 | sorted ranges follow one another from slot 0 to the last exactly when they hold every slot once |
| `Coverage.CoverageTestsAgree` | internal/health/checker.go:330-369 | the sweep succeeds exactly when the columns are readable, their sizes add up to 16384 and the bitmap is full |
| `SlotAssignment.SharesPartition` | internal/reconciler/cluster_reconciler.go:570-583 | every slot lies in exactly one share, and shares stay inside the slot space |
| `SlotAssignment.ShareSizes` | internal/reconciler/cluster_reconciler.go:571-578 | share sizes differ by at most one; a share is empty only with more primaries than slots |
| `SlotAssignment.SharesInOrder` | internal/reconciler/cluster_reconciler.go:570-583 | shares follow one another in the order of the primaries from slot 0 on, the larger ones first |
| `SlotAssignment.SlotsFrom` | internal/reconciler/cluster_reconciler.go:579-582 | the contiguous slots of one share |
| `SlotAssignment.Formation.ClusterAddSlots` | internal/redis/client.go:288-294 | the command's contract: all slots or none |
| `SlotAssignment.Formation.AssignShare` | internal/reconciler/cluster_reconciler.go:574-600 | one primary's turn succeeds exactly when it can be reached and owns slots already or its share is free |
| `SlotAssignment.Formation.AssignSlots` | internal/reconciler/cluster_reconciler.go:569-603 | succeeds exactly when every primary's turn does; then every primary without slots has its share, else the ones before the failure do |
| `SlotAssignment.TurnInFields` | internal/reconciler/cluster_reconciler.go:585-600 | a turn that succeeds asked a primary that answers; who owned slots keeps them, else it gets its share, which nobody owned |
| `SlotAssignment.ResumesToShares` | internal/reconciler/cluster_reconciler.go:585-593 | from any state where each primary holds nothing or its own share, the assignment completes exactly for at most 16384 primaries, and everyone ends with its share |
| `SlotAssignment.GatherCounts` | internal/health/checker.go:372-386 | the primaries' slot counts, or nothing if one is unreadable or zero |
| `SlotAssignment.Balanced` | internal/health/checker.go:371-403 | true exactly when all primaries are readable and serve slots within two percent of the rounded-up average |
| `SlotAssignment.InBalanceMeans` | internal/health/checker.go:388-402 | in balance means, in numbers: every count is positive and within two percent of the rounded-up average |
| `SlotAssignment.FormationInBalance` | internal/health/checker.go:392-402 | counts as of the initial shares are in balance exactly when the number of primaries divides 16384 or is at most 334 |
| `SlotsAfter.AssignmentCovers` | internal/reconciler/cluster_reconciler.go:569-603 | a view that shows the owners after a completed assignment passes the coverage check exactly when those who owned slots before held, taken together, their own shares |
| `SlotsAfter.AssignmentUncovered` | internal/reconciler/cluster_reconciler.go:585-593 | a holder of one slot for which the assignment completes and covers less than all slots |
| `SlotsAfter.FormationOutcome` | internal/reconciler/cluster_reconciler.go:585-603 | however much of the formation was done before, the completed one passes the coverage check, and the balance check exactly for divisors of 16384 and up to 334 primaries |
| `MissingSlots.CollectPrimaries` | internal/reconciler/health_reconciler.go:545-567 | the addressed, readable primaries with their counts, and exactly the slots they hold |
| `MissingSlots.TakesPart` | internal/reconciler/health_reconciler.go:545-559 | exactly the nodes flagged as primaries, with an address and a readable column, take part |
| `MissingSlots.TakenMeans` | internal/reconciler/health_reconciler.go:560-567 | a slot is taken exactly when one of these names it |
| `MissingSlots.FindMissing` | internal/reconciler/health_reconciler.go:573-579 | the slots nobody holds, ascending |
| `MissingSlots.SortPrimaries` | internal/reconciler/health_reconciler.go:593-595 | the same primaries, emptier ones first |
| `MissingSlots.Distribute` | internal/reconciler/health_reconciler.go:597-641 | carries out the plan up to the first grant that is not accepted, and ends accordingly |
| `MissingSlots.RemediateSlotCoverage` | internal/reconciler/health_reconciler.go:535-652 | an error without primaries; otherwise a plan over some ascending order of the primaries is carried out, and a busy reply has the missing slots settled by the vote |
| `MissingSlots.FillGivesAll` | internal/reconciler/health_reconciler.go:597-619 | where there is room for all missing slots, the plan hands out exactly these |
| `MissingSlots.FillStaysBelow` | internal/reconciler/health_reconciler.go:607-614 | no primary is filled beyond the average, not even the last one, which takes all that is left |
| `MissingSlots.FillServesOnce` | internal/reconciler/health_reconciler.go:598-640 | nobody is served more often than it is listed |
| `MissingSlots.FillServesEmptiest` | internal/reconciler/health_reconciler.go:593-614 | no primary is served while an emptier one that is listed stays below the average |
| `MissingSlots.LastTakesRest` | internal/reconciler/health_reconciler.go:609-614 | where the last primary in line has room, it takes all that the others left |
| `MissingSlots.RoomSuffices` | internal/reconciler/health_reconciler.go:589-590 | from consistent slot columns, the room up to the rounded-up average suffices for all missing slots |
| `MissingSlots.FillCompletes` | internal/reconciler/health_reconciler.go:535-652 | from consistent slot columns the plan gives out exactly the unowned slots, each once, and takes no primary above the rounded-up average |
| `SlotsAfter.FillCovers` | internal/reconciler/health_reconciler.go:597-641 | once every grant was accepted and took effect, the view passes the coverage check: every slot has exactly one owner |
| `OwnerDisputes.VoteSlot` | internal/reconciler/health_reconciler.go:697-706 | one more claim to one slot |
| `OwnerDisputes.VoteAll` | internal/reconciler/health_reconciler.go:673-711 | every disputed slot's candidate has heard every claim of every answering node, in order |
| `OwnerDisputes.ClaimsMean` | internal/reconciler/health_reconciler.go:673-696 | the claims to a slot are exactly those that an answering node shows: a primary with a readable column that holds it |
| `OwnerDisputes.VoteGoesToFirstMax` | internal/reconciler/health_reconciler.go:697-706 | the vote goes to the owner of the first claim of the highest epoch |
| `OwnerDisputes.ResolveSlotDisagreement` | internal/reconciler/health_reconciler.go:657-759 | claimed slots get the vote's winner and the others are added; an error exactly when nobody claims any disputed slot, or some are unclaimed and adding them is refused |
| `OwnerDisputes.TallyAll` | internal/reconciler/health_reconciler.go:1312-1340 | per slot, the tally of all claims of all answering nodes |
| `OwnerDisputes.CountIsCounted` | internal/reconciler/health_reconciler.go:1326-1336 | the tally holds every claimant with its number of votes and its highest epoch |
| `OwnerDisputes.PickBest` | internal/reconciler/health_reconciler.go:1357-1361 | whatever the map order: a claimant of the highest epoch with most votes among these |
| `OwnerDisputes.DisputedMeans` | internal/reconciler/health_reconciler.go:1345-1353 | a slot is disputed exactly when nodes of different ids claim it |
| `OwnerDisputes.ResolveConfigDisagreement` | internal/reconciler/health_reconciler.go:1271-1400 | an error exactly with fewer than two answers or no slot with several claimants; otherwise one fix per such slot, naming a best claimant |
| `OwnerDisputes.ResolversAgree` | internal/reconciler/health_reconciler.go:697-706 | both resolvers name the same owner for every map order exactly when the first claimant of the highest epoch has strictly more votes, counting its claims of every epoch, than any other claimant of the highest epoch |
| `OwnerDisputes.SoleClaimantWins` | internal/reconciler/health_reconciler.go:1355-1361 | they agree when one node alone claims with the highest epoch |
| `OwnerDisputes.ResolversDiffer` | internal/reconciler/health_reconciler.go:704-706 | three claims of one epoch on which they differ |
| `OwnerDisputes.NoDisputeLeft` | internal/reconciler/health_reconciler.go:1377-1391 | once the fixes took effect, no two nodes name different owners of a fixed slot, and no two that had answered differ on any slot |
| `OwnerDisputes.VoteLeavesNoDispute` | internal/reconciler/health_reconciler.go:717-730 | once the owners of the vote are set, no two nodes name different owners of such a slot, and those that had answered name nobody for the others |
| `ReplicaTopology.ReplicaSpreadOK` | internal/health/checker.go:419-460 | true exactly when the primaries are as many as desired, no replica follows anyone else, and each primary has exactly its number |
| `PlanMeaning.SpreadMeans` | internal/health/checker.go:419-460 | the check, entry by entry: ids of primaries, strays and followers counted |
| `ReplicaTopology.CountReplicas` | internal/reconciler/health_reconciler.go:813-824 | the followers of each primary, and the replicas of nobody known |
| `ReplicaTopology.TakeExtras` | internal/reconciler/health_reconciler.go:826-835 | exactly the replicas beyond the quota, earliest first, and counts lowered to the quota |
| `PlanMeaning.EarliestAreExtra` | internal/reconciler/health_reconciler.go:826-835 | of the replicas of one primary the earliest in view order are the surplus ones |
| `ReplicaTopology.ListDeficits` | internal/reconciler/health_reconciler.go:837-844 | each primary once per missing replica, in any order |
| `ReplicaTopology.RemediateReplicaSpread` | internal/reconciler/health_reconciler.go:773-881 | a legal plan for the view, and whether it reshapes the topology |
| `PlanMeaning.ReassignsInFields` | internal/reconciler/health_reconciler.go:787-870 | a reassigned node is an addressed replica, stray or of a primary with too many, and goes to a primary that is short |
| `ReplicaTopology.SplitByOwnership` | internal/reconciler/health_reconciler.go:958-980 | empty primaries, and those with slots or slots in flight |
| `ReplicaTopology.SortBySlots` | internal/reconciler/health_reconciler.go:1040-1042 | the same nodes, fewest slots first |
| `ReplicaTopology.RemediateExcessPrimaries` | internal/reconciler/health_reconciler.go:936-1079 | demotes empty primaries onto missing places, or else drains the fewest-slot owners that are too many |
| `ReplicaTopology.DemoteEmptyPrimaries` | internal/reconciler/health_reconciler.go:982-1034 | the first empty primaries, at most the excess, go pairwise to the missing places of the others |
| `PlanMeaning.DemotesInFields` | internal/reconciler/health_reconciler.go:958-1028 | a demoted node is an addressed primary without slots and none in flight, and goes to a primary that is short and is no such empty one itself |
| `ReplicaTopology.DrainSurplus` | internal/reconciler/health_reconciler.go:1037-1078 | the fewest-slot owners, at most the excess and never all, are drained, seeded from a primary that stays |
| `PlanMeaning.DrainsSmallest` | internal/reconciler/health_reconciler.go:1037-1046 | no drained owner has more slots than one that stays, slots in flight aside; owners with slots in flight go first |
| `PlanMeaning.DrainBounded` | internal/reconciler/health_reconciler.go:1037-1066 | at most the excess is drained and never all owners; the seed is a primary that stays |
| `ReplicaTopology.RemediatePrimaryDeficit` | internal/reconciler/health_reconciler.go:1123-1184 | promotes surplus replicas up to the missing primaries, or skips |
| `PlanMeaning.PromotesInFields` | internal/reconciler/health_reconciler.go:1123-1166 | promoted are addressed replicas, no more than there are beyond the desired total |
| `ReplicaTopology.RemediateReplicaTopology` | internal/reconciler/health_reconciler.go:894-920 | the gate: an error exactly without a non-empty view; on the first such view it passes exactly when the spread is right, else one repair pass |
| `TopologyConvergence.PassConservesSlots` | internal/reconciler/health_reconciler.go:773-1184 | no pass, whatever part of it took effect, changes how many owners any slot has |
| `TopologyConvergence.ReassignmentExact` | internal/reconciler/health_reconciler.go:813-850 | strays and extras together are exactly as many as the missing replicas |
| `TopologyConvergence.SpreadFromCounts` | internal/health/checker.go:419-460 | the right number of replicas on every primary leaves none over, so the check passes |
| `RepairRuns.ReassignReaches` | internal/reconciler/health_reconciler.go:813-881 | with as many primaries as desired, one complete pass makes the spread exact |
| `RepairRuns.ReassignmentMinimal` | internal/reconciler/health_reconciler.go:813-876 | no way of giving every primary its quota moves fewer replicas |
| `RepairRuns.DemoteEffect` | internal/reconciler/health_reconciler.go:982-1034 | a complete demotion turns as many empty primaries into missing replicas as there are of both, up to the excess |
| `RepairRuns.OwnersLackEnough` | internal/reconciler/health_reconciler.go:988-1006 | with enough slot owners, they lack at least one replica per empty primary |
| `RepairRuns.PromoteEffect` | internal/reconciler/health_reconciler.go:1132-1166 | a complete promotion supplies exactly the missing primaries |
| `RepairRuns.DrainEffect` | internal/reconciler/health_reconciler.go:1037-1078 | a complete drain leaves exactly the desired number of slot owners |
| `RepairRuns.PassProgress` | internal/reconciler/health_reconciler.go:773-1184 | a complete pass brings a curable view nearer, and leaves any other one incurable |
| `RepairRuns.RepairConverges` | internal/reconciler/health_reconciler.go:923-935 | after four complete passes, and ever after, the spread is right if the first view was curable; otherwise it is never right |
| `RepairRuns.RunConservesSlots` | internal/reconciler/health_reconciler.go:773-1184 | along a run of passes cut short anywhere every slot keeps its number of owners |
| `RepairRuns.StuckForever` | internal/reconciler/health_reconciler.go:1006-1034 | a fully covered cluster on which the check never passes, however many passes the gate makes |
| `RepairProgress.CutShortKeeps` | internal/reconciler/health_reconciler.go:773-1184 | a pass cut short anywhere leaves a curable view curable and any other one incurable, and takes it no further from the desired topology |
| `RepairProgress.MixedRunSettles` | internal/reconciler/health_reconciler.go:923-935 | among any number of passes cut short anywhere, as many complete ones as the first view is away make the spread right if it was curable; otherwise it is never right |
| `RepairExists.CompletePassExactly` | internal/reconciler/health_reconciler.go:773-1184 | a complete pass exists from every view, unless it has to drain slots that have more owners than there shall be primaries |
| `RepairExists.RepairCanComplete` | internal/reconciler/health_reconciler.go:923-935 | from every curable view without such slots, at most four complete passes reach the right spread |
| `Membership.PromoteReplicaOfDeadMaster` | internal/reconciler/health_reconciler.go:284-309 | the first live, unfailed replica of the dead node whose takeover succeeds |
| `Membership.FindStale` | internal/reconciler/health_reconciler.go:373-442 | exactly the ghosts, slotless stale entries and (ephemeral only) stale owners without successor are forgotten, and the others with a successor are taken over |
| `Membership.ForgetsInFields` | internal/reconciler/health_reconciler.go:373-442 | which entries are forgotten, in addresses, flags, slots and possible successors |
| `Membership.TakesOverInFields` | internal/reconciler/health_reconciler.go:411-430 | a dead slot owner with a replica that can succeed it is taken over by such a replica |
| `Membership.TakeoverMeans` | internal/reconciler/health_reconciler.go:284-309 | and nobody else is taken over |
| `Membership.FixedInFields` | internal/reconciler/health_reconciler.go:480-489 | the cluster is repaired exactly when a slot owner was forgotten |
| `Membership.FindMissing` | internal/reconciler/health_reconciler.go:445-479 | the live pods whose address is not in view, the empty address counting as the queried node's |
| `Membership.MeetsInFields` | internal/reconciler/health_reconciler.go:445-479 | a pod is met exactly when no entry has its address, but the queried one never while some entry has none |
| `Membership.SoleSurvivorMeetsOthers` | internal/reconciler/health_reconciler.go:447-463 | a sole survivor that shows itself without an address has all other pods met, and not itself |
| `Membership.HealMembership` | internal/reconciler/health_reconciler.go:353-505 | one pass, an error without pods or view, and whether anything changed |
| `Membership.UnchangedWhenHealed` | internal/reconciler/health_reconciler.go:491-491 | no change is reported exactly when no ghost is left, every addressed entry is live or a persistent owner without successor, and every live pod is in view |
| `HealingRuns.SlotsKept` | internal/reconciler/health_reconciler.go:411-489 | whatever part takes effect, a slot loses its owner only when an ephemeral cluster forgets an owner without successor and then runs fix; it gains one only by fix |
| `HealingRuns.PersistentSlotsKept` | internal/reconciler/health_reconciler.go:336-345 | on a persistent cluster no run of passes changes which slots are owned, whatever else changes in between while slot owners keep their slots |
| `HealingRuns.PassesSettle` | internal/reconciler/health_reconciler.go:353-505 | a complete pass lowers the measure by at least one for each node forgotten, taken over or met |
| `HealingRuns.ChangesBounded` | internal/reconciler/health_reconciler.go:347-348 | however long healing runs over the same live pods, at most as many passes change anything as the first view weighs |
| `Ordinals.OrdinalDetermines` | internal/reconciler/upgrade_reconciler.go:396-407 | no two nodes of the scaled-up StatefulSet share an ordinal, and each lies inside it |
| `Ordinals.OrdinalReached` | internal/reconciler/upgrade_reconciler.go:1399-1424 | every ordinal of the scaled-up StatefulSet belongs to a node |
| `Ordinals.QuotientBelow` | internal/reconciler/cluster_reconciler.go:606-611 | the i-th replica belongs to an existing primary: the clamp never applies, and the mapping is the ordinal layout's |
| `RollingUpgrade.Reconciler.UpdateSubstatus` | internal/reconciler/cluster_reconciler.go:700-708 | substatus and partition change together, unless the write is lost or the substatus is the same |
| `RollingUpgrade.Reconciler.HandleUpgradeStart` | internal/reconciler/upgrade_reconciler.go:293-344 | the StatefulSet grows; the phase advances if the write gets through |
| `RollingUpgrade.Reconciler.HandleUpgradeScalingUp` | internal/reconciler/upgrade_reconciler.go:347-417 | once all pods are there, resharding starts at the last primary |
| `RollingUpgrade.Reconciler.HandleUpgradeResharding` | internal/reconciler/upgrade_reconciler.go:424-563 | the moved slots go to the pivot or the next primary; the phase advances only from an empty source |
| `RollingUpgrade.Reconciler.FlushAndPersistNode` | internal/reconciler/upgrade_reconciler.go:1096-1145 | a hard reset drops the node's slots even when saving then fails, and is logged |
| `RollingUpgrade.Reconciler.RecycleReplicasForPrimary` | internal/reconciler/upgrade_reconciler.go:1182-1306 | succeeds exactly when all replicas of the primary are new and attached, else recycles the first outdated one |
| `RollingUpgrade.Reconciler.HandleUpgradeRollingUpdate` | internal/reconciler/upgrade_reconciler.go:570-760 | an outdated pod is flushed and deleted, also while it terminates; a new one lets its replicas and then the partition advance |
| `RollingUpgrade.Reconciler.HandleUpgradeEnding` | internal/reconciler/upgrade_reconciler.go:765-883 | the pivot's slots go to primary 0; the phase advances only from an empty pivot |
| `RollingUpgrade.Reconciler.HandleUpgradeScalingDown` | internal/reconciler/upgrade_reconciler.go:887-989 | the extra pods go, and the upgrade is ready once the others are there and the checks pass |
| `RollingUpgrade.Reconciler.HandleRollingUpgrade` | internal/reconciler/upgrade_reconciler.go:265-280 | one cycle of the state machine, the nodes it resets and the deletes it issues |
| `UpgradeRuns.SlotsStayPartitioned` | internal/reconciler/upgrade_reconciler.go:419-563 | in every run the slots owned are those owned at the start, and no slot has two owners |
| `UpgradeRuns.DeletesOnlyEmpty` | internal/reconciler/upgrade_reconciler.go:625-659 | a pod is deleted only while its node owns no slot |
| `UpgradeRuns.FlushesOnlyEmpty` | internal/reconciler/upgrade_reconciler.go:625-646 | a node is reset only while it owns no slot and its pod is to be replaced |
| `UpgradeRuns.DeletedOnce` | internal/reconciler/upgrade_reconciler.go:605-615 | in every run each ordinal is deleted with effect at most once |
| `UpgradeDeletes.IssueExact` | internal/reconciler/upgrade_reconciler.go:625-652 | an issued delete takes effect exactly on a pod that does not terminate yet; on one that does it changes nothing |
| `UpgradeDeletes.IssuedOnceExactly` | internal/reconciler/upgrade_reconciler.go:605-652 | in every run that starts without terminating pods, no delete is issued twice exactly when no cycle issues one on a terminating pod |
| `UpgradeDeletes.DeleteRepeats` | internal/reconciler/upgrade_reconciler.go:605-652 | a run in which the delete of one pod is issued twice and takes effect once |
| `UpgradeGates.RecycledExactly` | internal/reconciler/upgrade_reconciler.go:616-760 | which pod a cycle recycles: the outdated one of the primary, then the first of its replicas that is not done |
| `UpgradeGates.LogsExactly` | internal/reconciler/upgrade_reconciler.go:625-652 | which deletes are issued and which nodes are reset |
| `UpgradeGates.ResetBeforeDelete` | internal/reconciler/upgrade_reconciler.go:625-652 | a persistent cluster's pod is deleted only in a cycle that reset and saved its node |
| `UpgradeGates.NoFlushNoDelete` | internal/reconciler/upgrade_reconciler.go:633-640 | without a complete flush no pod of a persistent cluster is deleted |
| `UpgradeGates.EphemeralNeverResets` | internal/reconciler/upgrade_reconciler.go:625-632 | an ephemeral cluster resets nothing, and nothing depends on how a flush would fare |
| `UpgradeGates.DeletedWasReset` | internal/reconciler/upgrade_reconciler.go:1210-1252 | in every run on a persistent cluster, each original pod that was deleted had its node reset by then |
| `UpgradeGates.StartEnds` | internal/reconciler/upgrade_reconciler.go:293-344 | the StatefulSet grows, and the phase ends once this is written |
| `UpgradeGates.ScaleUpEnds` | internal/reconciler/upgrade_reconciler.go:347-417 | resharding starts at the last primary exactly once all pods are there |
| `UpgradeGates.ReshardEnds` | internal/reconciler/upgrade_reconciler.go:424-563 | a primary counts as emptied exactly when it owns nothing, or all moved without error and its replicas were forgotten |
| `UpgradeGates.UpdateEnds` | internal/reconciler/upgrade_reconciler.go:653-760 | a primary counts as upgraded exactly when its pod and its replicas are new, these are attached and the check passed |
| `UpgradeGates.EndingEnds` | internal/reconciler/upgrade_reconciler.go:765-883 | the extra primary is given up exactly when it is empty and the cluster settled |
| `UpgradeGates.ScaleDownEnds` | internal/reconciler/upgrade_reconciler.go:887-989 | the upgrade is ready exactly when the original pods are there and the checks passed |
| `UpgradeRuns.OutcomeWhenReady` | internal/reconciler/upgrade_reconciler.go:745-760 | a finished upgrade: slots rotated by one, pivot empty and gone, every original pod on the new template |
| `UpgradeRuns.StepLowers` | internal/reconciler/upgrade_reconciler.go:255-280 | every step of a run changes nothing or lowers (stages left, work of the stage, pods left) |
| `UpgradeRuns.CanProgress` | internal/reconciler/upgrade_reconciler.go:265-280 | as long as the upgrade is not finished, some step brings it forward |
| `UpgradeRuns.CanComplete` | internal/reconciler/upgrade_reconciler.go:265-280 | from every state a run can reach the upgrade can still be completed |
| `ScaleUpRoles.ClassifyPods` | internal/reconciler/scale_reconciler.go:81-167 | slot owners stay primaries, the first nodes without a role join them, the rest are replicas; or promotion or retry |
| `ScaleUpRoles.RolesExact` | internal/reconciler/scale_reconciler.go:105-169 | every pod gets exactly one role in the right numbers, and no slot owner of the cluster becomes a replica |
| `ScaleUpRoles.RolesInFields` | internal/reconciler/scale_reconciler.go:105-169 | slot owners of the cluster stay primaries, its replicas stay replicas, and no node from outside becomes a primary while an empty member becomes a replica |
| `ScaleUpRoles.Replication.AttachReplica` | internal/reconciler/cluster_reconciler.go:614-628 | one replica follows its primary unless the command is refused |
| `ScaleUpRoles.Replication.SetReplicas` | internal/reconciler/cluster_reconciler.go:605-630 | on success the i-th replica follows primary i / R, and nobody else follows anyone new |
| `ScaleUpRoles.TargetInBlock` | internal/reconciler/cluster_reconciler.go:606-611 | the replicas of one primary are a block of as many as each shall have |
| `ScaleUpRoles.FormedFollowers` | internal/reconciler/cluster_reconciler.go:606-611 | every primary then has exactly its number of followers |
| `ScaleUpRoles.SpreadExactly` | internal/reconciler/scale_reconciler.go:270-300 | the view of the pods after classification and attachment, in any order, passes the topology check exactly when there were no more slot owners than desired primaries |
| `ScaleUpRoles.Replication.HandleScalingUp` | internal/reconciler/scale_reconciler.go:45-300 | one pass: waits for all nodes, promotes exactly with too few nodes for the primaries and replicas to spare, retries with neither; no slot owner becomes a replica, and after an attachment the topology check passes exactly when there were no more slot owners than desired primaries |
| `ScaleDownRoles.SplitPods` | internal/reconciler/scale_reconciler.go:387-421 | the first pods of each role, up to the target number, are kept |
| `ScaleDownRoles.SplitExact` | internal/reconciler/scale_reconciler.go:398-421 | keep and remove partition the pods, the kept ones fit the target, and from too many pods at least one is removed |
| `ScaleDownRoles.KeepsLowest` | internal/reconciler/scale_reconciler.go:398-421 | of each role the pods of the lowest ordinals are kept, as many as the target asks for |
| `ScaleDownRoles.RemovalOrder` | internal/reconciler/scale_reconciler.go:994-1004 | replicas are removed before any primary |
| `ScaleDownRoles.Fleet.DrainPrimaries` | internal/reconciler/scale_reconciler.go:433-473 | goes on only once every primary to be removed owns nothing |
| `ScaleDownRoles.Fleet.RemoveNodes` | internal/reconciler/scale_reconciler.go:993-1020 | the cluster forgets the nodes, replicas first, with whatever they own |
| `ScaleDownRoles.Fleet.HandleScalingDown` | internal/reconciler/scale_reconciler.go:321-491 | up to the shrink exactly the slots owned before are owned after, and nodes are removed only when drained; the shrink loses no slot exactly when every kept slot owner sits below the target ordinal |
| `ScaleDownRoles.RemovalLosesNothing` | internal/reconciler/scale_reconciler.go:470-484 | once the drained primaries are empty, removing the surplus leaves every slot with the keepers |
| `ScaleDownRoles.ShrinkAfterRemoval` | internal/reconciler/scale_reconciler.go:470-491 | after draining and removing, shrinking the StatefulSet keeps every slot exactly when the kept slot owners sit below the target ordinal |
| `ScaleDownRoles.KeptPrimariesSurvive` | internal/reconciler/scale_reconciler.go:486-491 | all kept primaries sit below the target ordinal exactly when at least as many primaries do as were kept |
| `ScaleDownRoles.ShrinkDecidedBefore` | internal/reconciler/scale_reconciler.go:470-491 | where the drain leaves every kept primary with slots, the scale-down loses none exactly when at least as many primaries sit below the target ordinal as are kept |
| `ScaleDownRoles.ShrinkTakesKeeper` | internal/reconciler/scale_reconciler.go:398-407 | a shuffled cluster of all slots whose scale-down loses slots, however it is drained |
| `ConfigQueue.LastAppliedBefore` | internal/reconciler/config_plan.go:172-179 | the last applied configuration before an index |
| `ConfigQueue.SelectConfig` | internal/reconciler/config_plan.go:148-168 | the first unfinished configuration, else the last applied, else the last; with the last applied one before it |
| `ConfigQueue.FindBaseline` | internal/reconciler/config_superseding.go:92-103 | the forward scan finds the last applied configuration before the selected one |
| `ConfigQueue.BaselineIsPrevious` | internal/reconciler/config_superseding.go:90-103 | the forward and the backward search find the same configuration |
| `ConfigQueue.IndexOfConfig` | internal/reconciler/config_superseding.go:107-114 | the first index of a sequence number, or -1 |
| `ConfigQueue.ApplySuperseding` | internal/reconciler/config_superseding.go:37-88 | the longest run from the selected configuration in which all but the last may be skipped and all agree, with the baseline too, in every field outside the topology |
| `ConfigQueue.SameOutsideTopology` | internal/reconciler/config_superseding.go:116-135 | two specifications differ in topology only exactly when all other fields are the same |
| `ConfigQueue.SupersedingInFields` | internal/reconciler/config_superseding.go:37-88 | all that is passed over agrees with the final one outside the topology and may be skipped, and the next one does not |
| `ConfigQueue.FinalIsLongest` | internal/reconciler/config_superseding.go:60-87 | the walk forward, as a function, ends at the end of that longest run |
| `ConfigQueue.ShapedByPairs` | internal/reconciler/config_plan.go:148-157 | the shape of the queue: whatever is finished or in progress has only finished ones before it |
| `ConfigQueue.WriteKeepsShape` | internal/reconciler/config_plan.go:97-132 | every phase write that Robin makes keeps the shape and every finished phase |
| `ConfigQueue.Queue.InitPhases` | internal/reconciler/config_plan.go:45-56 | new configurations become Pending, in memory even where the write fails |
| `ConfigQueue.Queue.ApplySupersedingStatus` | internal/reconciler/config_plan.go:112-126 | superseded ones are written in order up to the first failed write; that one is then the target, superseded in memory |
| `ConfigQueue.Queue.Process` | internal/reconciler/reconciler.go:178-280 | only the target changes phase, to in progress once the start is written, to applied once its work finishes |
| `ConfigQueue.Queue.Reconcile` | internal/reconciler/reconciler.go:131-312 | one cycle: the stored list becomes Cycle of it under any failed writes, and the configuration worked on is its Target |
| `ConfigQueue.CycleKeepsShape` | internal/reconciler/config_plan.go:21-132 | one cycle, whatever writes fail, keeps the shape and moves phases forward only |
| `ConfigQueue.CycleKeepsMeaning` | internal/reconciler/config_superseding.go:60-87 | one cycle, whatever writes fail, keeps that each superseded configuration could be skipped and its successor differs in topology only |
| `ConfigQueue.TargetIsWorked` | internal/reconciler/config_plan.go:21-72 | the target ends in progress or applied behind finished ones only; what was skipped on the way is superseded, skippable and equal to the target up to topology |
| `ConfigQueue.ActionableIsWorked` | internal/reconciler/reconciler.go:131-312 | when the superseding and start writes get through, an open or applied configuration is worked on |
| `ConfigQueue.CycleTransitions` | internal/reconciler/reconciler.go:178-280 | a configuration is started only once this is written, applied only once its work finished, and at most one is worked on |
| `ConfigQueue.FailureStops` | internal/reconciler/config_plan.go:108-126 | superseding stops at the first failed write, and nothing is worked on then |
| `ConfigQueue.CycleFinishes` | internal/reconciler/reconciler.go:178-280 | a cycle that fails nowhere and finishes its work leaves everything up to the chosen configuration finished, and nothing behind it |
| `ConfigQueue.FreshIsHealthy` | internal/reconciler/config_plan.go:45-56 | the run theorems apply to every queue of configurations that have no phase yet |
| `ConfigQueue.RunKeepsQueue` | internal/reconciler/reconciler.go:131-312 | in every run of cycles under any failed writes and of added configurations, order, shape and the meaning of superseded hold, and finished ones stay as they are |
| `ConfigQueue.SupersededIsReplaced` | internal/reconciler/config_superseding.go:60-87 | every superseded configuration has a later one that is not superseded and differs from it in topology only |
| `ConfigQueue.RunReplaces` | internal/reconciler/config_superseding.go:60-87 | in every run each superseded configuration has a later one that is not and agrees with it outside the topology |
| `ConfigQueue.QueueEmpties` | internal/reconciler/reconciler.go:131-312 | after as many finishing cycles as there are configurations all are finished and the newest is applied |
| `ConfigQueue.SupersededBetween` | internal/reconciler/config_superseding.go:60-87 | everything between the last applied configuration and the target is superseded |

## Left out

- The Redis and Kubernetes commands themselves, their timing, retries, time-outs, gossip and the FORGET blacklist: a command enters only through what it does once effective.
- Kubernetes object building, overrides, metrics, registry, HTTP server, runtime settings, logging, passwords and authentication rotation: plumbing around the decisions.
- Standalone mode, scale-to-zero, fast upgrade and fast scaling: short linear sequences over the parts modelled here.
- `formCluster`, `clusterAlreadyFormed`, `verifyCluster` and the gossip checks `checkMembership` and `visibleNodeIDs`: comparisons whose outcome is an input of the modelled steps.
- Change detection between two configurations and the cluster statuses outside the rolling upgrade: finite case distinctions.
- Raw flag strings: flags are a set of tags, read as the source's exact or substring tests intend.
- In the topology, membership and scaling parts a slot column is a set of slots, with one mark for slots in flight in the topology part; the text of the column is treated in `SlotRanges` and `Coverage`.
- ReplicaTopology.SplitByOwnership: an unreadable slot column, which the source takes for empty, cannot be told apart, because the model's entries hold the slots themselves.
- SlotRanges.CountSlots: sums of range sizes are unbounded integers; 64-bit wrap-around is not modelled, because it needs ranges far beyond the slot space.
- SlotRanges.CountSlotsFromRanges: as for CountSlots, the sum does not wrap around.
- The rounded-up averages are integer divisions; the source computes them in floating point, exactly for these sizes.
- RepairRuns.RepairConverges: speaks of views in which every node is addressed, and of passes whose commands all take effect; passes cut short are part of RepairProgress.MixedRunSettles. A node that is not drained is taken to remain a slot owner if it was one, also where it only had a slot in flight.
- HealingRuns.ChangesBounded: speaks of complete passes over the same live pods with nothing changing in between; what may change in between is part of PersistentSlotsKept only.
- UpgradeRuns.SlotsStayPartitioned: pods deleted by anybody but the upgrade are not modelled; healing then changes the topology before the handlers go on.
- RollingUpgrade.Reconciler.HandleUpgradeScalingDown: the extra pods are gone as soon as the StatefulSet shrinks; that they terminate first is not represented, because nothing is asked of them any more.
- UpgradeRuns.StepLowers: the attachment of replicas is an input of each cycle, not part of the state.
- ScaleUpRoles.RolesExact: a node outside the cluster is never asked for its slots, as in the source, so nothing is said about slots it may hold on its own.
- ScaleUpRoles.Replication.HandleScalingUp: meeting, healing and the rebalance between classification and attachment are left out, so that their early returns are not; a node outside the cluster is taken for a primary, and the slots each primary ends with are an input.
- ScaleDownRoles.Fleet.HandleScalingDown: the fast path, healing, a failed removal, the re-attachment of replicas and the final check are left out; a slot counts as lost when its only owner's pod is deleted.
- ConfigQueue.RunKeepsQueue: configurations are added at the end and never deleted by the operator; schedules and intervals are not modelled.

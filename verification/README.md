# miroir: a verified model of its protocols

miroir is a Kubernetes storage driver over DRBD. Node agents and a controller work
independently on shared API objects, kernel flags and files; what keeps data safe is a
handful of small protocols between them. This project models those protocols in Dafny and
proves what each keeps.

A protocol is a state, a set of steps, and the runs made of them: agents crash between any
two writes, writes arrive late or never, caches lag. `Enabled` says when a step may be taken
and `Apply` what it does; an invariant is shown to survive every step and a theorem is read
off it for every run. Where the code loops over entries or updates an object in place, a
method or a class does the same and is proved against the function or step it stands for.

Several promises hold only under assumptions about the environment. Those are fields of an
`Env` record, and the main lemma is then an equivalence: the promise holds in every run if
and only if the environment departs from none of them. Each departure has its own lemma with
the run that breaks the promise.

| area | files |
|---|---|
| single-volume snapshot barrier | `SnapshotStatus`, `SnapshotRound`, `SnapshotLiberties` |
| group snapshot barrier | `GroupRound`, `GroupAgent`, `GroupLiberties` |
| shared kernel flags, stale-barrier sweep, coordinator election | `BarrierOwnership`, `BarrierSweep`, `Election` |
| membership of a volume | `VolumeSpec`, `NodeMap`, `Membership`, `MembershipReconcilers` |
| finalizers and backing devices | `Backing` |
| driver teardown, breaker | `Teardown`, `DriverCalls`, `Breaker` |
| growth, sizes | `Growth`, `Sizes` |
| verify marker | `VerifyGuard` |
| fast path | `FastPath` |
| minors and their files | `Minors`, `MinorAllocator`, `MinorFiles`, `ConfigText`, `ResFile` |
| placement, capacity, restores | `Placement`, `ZoneSpread`, `Reshape` |
| shared | `BarrierTypes`, `Sequences`, `Text` |

Node, volume and resource names are numbers whose order is the order of the names; the
file modules use strings. Kubernetes objects are values with atomic writes, checked against
a version where the code checks one.

## What the code does not keep

Each of these is a lemma below; the code is modelled as it is.

- A cut is still admitted at the deadline second, when the sweep already treats the round as
  stale; a leg cut twice in one round while its first Done is in flight can be cut after the
  seal; a failed suspend lifts a barrier another write vouches for. Each tears a snapshot.
- A node with a Pending diskless slot raises all its group legs again, recorded ones too. The
  slot is left behind when a diskless leg is unstaged before its node raises and staged back
  after; if the second raise fails, it lifts flags of legs recorded Suspended in a fresh round.
  A group raise whose patch landed but was reported failed is taken back in the same way, where
  a snapshot's raise keeps its flag. A round deleted while open takes its flags down under slots
  that still say Suspended. A group covers a volume only through the member snapshot: with that
  deleted while the round is open, another snapshot's agent finds no round and lifts its legs.
- Group slot writes are merge patches that nothing ties to a round: one that lands after a
  reopen counts in the new round.
- An agent whose published status is split-brain, or has no disk state yet, returns before
  the step that would lift its barrier; only the sweep lifts it.
- Removing a leg patches its slot out before the finalizer update, and that patch refreshes
  the version the update is checked against. An entry added back and completed in between
  loses its finalizer. Only the tie-breaker retrofit refuses to add a node back under a
  pending finalizer; eviction and client attach do not.
- Creation never allows remote access on an exported volume, but an operator can. The next
  attach then appends a client leg the API rules forbid, and is refused.
- A call that connects looks for stranded drbdsetup disconnects only: a stuck drbdadm
  disconnect of the split-brain recovery, whose outcome that recovery ignores, stops nothing. A
  restart looks for no stranded disconnect at all. The stalled-target cycle goes on past its own
  stuck disconnect to force another and connect.
- A slot the verify scheduler or the self-heal reads from a lagging cache can hide a marker or a
  finding, and the heal then cycles a pair that has one.
- If the first diskful replica leaves during a growth, the next one has already reported the
  new size, so no coordinator is ever behind and the device is not resized.
- A comment calls the status slot left by a crash during removal something nothing reads; the
  minor assignment reads it, and hands the volume a minor that may have been given away.
- Losing the assignment file is harmless while every registered resource has its config, but
  a later reclaim of a held-open resource, whose assignment was not re-recorded, frees its
  minor while the kernel still uses it.
- Placement admits a node without fresh stats; capacity reports it as full.
- For a selected node without the pool, placement pins the next candidate of the rotated
  topology. A full one refuses what the cluster was said to hold; without remote access a volume
  is placed where the capacity was said to be nothing.

## Model

| member | source | states |
|---|---|---|
| `SnapshotRound.Lockstep` | internal/agent/snapshot.go:341-563 | In every run with voided and retried rounds, promotion among diskful legs, agent crashes and delayed writes, a ready snapshot has the same content on every diskful leg. |
| `SnapshotRound.RoundsDoNotMix` | internal/agent/snapshot.go:772-788 | A raised slot seen in the open round was written by its node for that round: the fenced patch lets no slot of another round count. |
| `SnapshotRound.OneInstant` | internal/agent/snapshot.go:493-563 | All cuts of the open or sealed round show the volume as it was at one instant of the run. |
| `SnapshotRound.ReadyIsOneInstant` | internal/agent/snapshot.go:522-563 | A ready snapshot is, on every diskful leg, the volume's content at one instant of the run. |
| `SnapshotRound.NoStrandedFreeze` | internal/agent/snapshot.go:387-402 | Past the deadline a live leg's next pass lifts its barrier exactly when the snapshot is ready or the node's status does not stop the pass early; the sweep lifts it in any case. |
| `SnapshotLiberties.LateCutTears` | internal/agent/snapshot.go:493-520 | A cut taken at the deadline second can pair with a leg written after the sweep lifted it. |
| `SnapshotLiberties.OverlappingRecutTears` | internal/agent/snapshot.go:493-520 | A leg cut again while its first Done is in flight can be cut after the seal. |
| `SnapshotLiberties.LiftOverWriteTears` | internal/agent/snapshot.go:407-485 | A failed suspend that lifts while a Suspended of the round is in flight lets a leg be cut unprotected. |
| `SnapshotLiberties.DisklessPromotionTears` | internal/agent/snapshot.go:697-749 | A diskless leg promoted inside an open round writes behind every barrier. |
| `SnapshotLiberties.LockstepExactly` | internal/agent/snapshot.go:341-563 | On every volume with two or more diskful legs, lockstep holds in every run if and only if none of the four departures is possible; that of a diskless promotion takes a diskless leg. |
| `SnapshotStatus.SnapshotAgent.AllSuspended` | internal/agent/snapshot.go:567-574 | True exactly when every diskful slot is Suspended or Done. |
| `SnapshotStatus.SnapshotAgent.OpenRound` | internal/agent/snapshot.go:580-597 | Within the retry backoff of a failed round, or beside a live sibling round, nothing happens; otherwise a successful suspend raises the flag and opens the round, and a failed one writes nothing and leaves the flag only where a sibling is live by then. |
| `SnapshotStatus.SnapshotAgent.StartRound` | internal/agent/snapshot.go:407-485 | The status written is the round-opening function of the old one. |
| `SnapshotStatus.SnapshotAgent.RaiseBarrier` | internal/agent/snapshot.go:407-485 | A successful suspend leaves the flag up and sends Suspended; a failed one sends nothing and leaves the flag only where a sibling round holds it. |
| `SnapshotStatus.SnapshotAgent.CollectLegs` | internal/agent/snapshot.go:522-563 | Seals when all legs are Done, voids when expired, else waits; lifts unless a sibling is live. |
| `GroupRound.GroupConsistentCut` | internal/agent/groupsnapshot.go:205-489 | In every run, when a group is ready there is one instant at which every diskful leg's snapshot of every member equals that member's content, diskless Primaries expected by Pending slots included. |
| `GroupRound.OneInstant` | internal/agent/groupsnapshot.go:402-489 | All cuts of the live round show their volumes as they were at one instant of the run. |
| `GroupLiberties.LateCutTears` | internal/agent/groupsnapshot.go:402-424 | A cut at the deadline second tears the group. |
| `GroupLiberties.OverlappingRecutTears` | internal/agent/groupsnapshot.go:402-424 | A second cut of a round with the first Done in flight lets the round seal over deleted cuts. |
| `GroupLiberties.LiftOverRaiseTears` | internal/agent/groupsnapshot.go:322-394 | A failed raise that lifts what a recorded or sent Suspended vouches for tears it. |
| `GroupLiberties.UnseenPrimaryTears` | internal/agent/groupsnapshot.go:322-394 | A diskless Primary missing from the open round tears it. |
| `GroupLiberties.StaleLandingTears` | internal/agent/groupsnapshot.go:786-793 | A slot write that lands after its round was voided and reopened tears it. |
| `GroupLiberties.GroupCutExactly` | internal/agent/groupsnapshot.go:205-489 | In every group with a member of two or more diskful legs, the consistent cut holds in every run if and only if none of the five departures is possible. |
| `GroupAgent.Agent.CountDone` | internal/agent/groupsnapshot.go:433-489 | The Done count reaches the total exactly when every diskful leg of every member is Done. |
| `GroupAgent.Agent.CutGate` | internal/agent/groupsnapshot.go:673-688 | Open exactly when every diskful slot is raised and no live diskless leg is still expected. |
| `GroupAgent.Agent.RaiseBarriers` | internal/agent/groupsnapshot.go:322-394 | All legs raised, or the first failure leaves only what siblings co-hold. |
| `GroupAgent.Agent.CutLegs` | internal/agent/groupsnapshot.go:402-424 | Reports Done only when every leg was cut behind its barrier; no failure lifts one. |
| `GroupAgent.Agent.CollectSlots` | internal/agent/groupsnapshot.go:433-489 | Seals, voids by the voiding function, or leaves the status; lifts only when the round closes. |
| `GroupAgent.Agent.VoidSlots` | internal/agent/groupsnapshot.go:433-489 | The loops over members and legs compute the voided slots. |
| `BarrierOwnership.BarrierOwned` | internal/agent/snapshot.go:604-695 | With any number of rounds over shared volumes, a raised diskful slot in an open round younger than the deadline has its kernel flag up, unless all the round's slots are Done: in every run where no diskless leg is staged under a Pending slot, no open round and no member snapshot of one is deleted, and no landed patch is reported failed. |
| `BarrierOwnership.OwnershipExactly` | internal/agent/groupsnapshot.go:219-252 | Rounds of age d or less own their flags in every run if and only if d is below the deadline and none of those four departures is possible. |
| `BarrierOwnership.RestageBreaks` | internal/agent/groupsnapshot.go:223-225 | A raise due over recorded legs, for a diskless leg staged back under its Pending slot, fails and lifts them. |
| `BarrierOwnership.DeletionBreaks` | internal/agent/groupsnapshot.go:129-147 | A round deleted while open lowers the flags of its recorded legs. |
| `BarrierOwnership.MemberGoneBreaks` | internal/agent/snapshot.go:633-669 | With a member's snapshot deleted under an open group round, another snapshot's agent lifts the member's recorded legs. |
| `BarrierOwnership.LostReplyBreaks` | internal/agent/groupsnapshot.go:388-393 | A group raise recorded but reported failed is taken back under its slots. |
| `BarrierOwnership.OnlyOwnerLifts` | internal/agent/groupsnapshot.go:698-724 | A flag under an open round that covers its volume, by a member snapshot where the round is a group's, falls only by that round's own step, or by a sweep that no longer finds the round fresh. |
| `BarrierOwnership.MutualDeferral` | internal/agent/snapshot.go:604-695 | Two open rounds that cover a volume stop every step of every round from lifting its legs, a failed raise included. |
| `BarrierOwnership.OwnLiftExactly` | internal/agent/snapshot.go:387-402 | Some round's own step can lower a flag if and only if a round over its volume is closed, deleted, all Done, expired or due a raise of the leg, and no other open round covers the volume. |
| `BarrierOwnership.AlwaysALift` | cmd/main.go:1164-1228 | From every reachable state, whatever the environment did, a raised flag is down after one deadline and a sweep. |
| `BarrierOwnership.DeadlineBreaks` | cmd/main.go:1164-1228 | At the deadline second the sweep lifts a leg of a round no node yet reads as expired. |
| `BarrierSweep.Kernel.ResumeStaleBarriers` | cmd/main.go:1164-1228 | Of the listed volumes, exactly those no fresh snapshot or group round covers are lifted; a failed resume leaves only its own. |
| `BarrierSweep.HeldByGroups` | cmd/main.go:1174-1215 | The volumes a fresh group round covers, by member snapshot or by slot key. |
| `Election.CoordinatorFor` | internal/agent/snapshot.go:716-749 | The walk decides as the declarative election does. |
| `Election.ExactlyOne` | internal/agent/snapshot.go:716-749 | With every diskful entry addressed, exactly one member of a mutually connected set, cut off from other diskful nodes and seeing no Primary, elects itself. |
| `Election.AtMostOne` | internal/agent/snapshot.go:716-749 | With unaddressed entries, at most one does. |
| `Election.ElectedExactly` | internal/agent/snapshot.go:716-749 | One does, if and only if no unaddressed diskful entry stands before all of theirs. |
| `Election.PrimaryCoordinates` | internal/agent/snapshot.go:716-722 | A Primary every other node sees is the only coordinator, diskful or not. |
| `Membership.EditAccepted` | api/v1alpha1/miroirvolume_types.go:208-225 | Every completion, attach, detach, tie-breaker add, conversion and eviction takes a valid spec whose export allows no client leg to one the static and transition rules accept, with distinct ids in 0..4, and leaves it so. |
| `Membership.NeverRefusedExactly` | internal/csi/controller.go:246-256 | In runs from volumes as they are created no edit is ever refused, if and only if no operator allows remote access on an exported volume. |
| `Membership.CarelessOperatorRefuses` | internal/csi/node.go:163-167 | With remote access switched on by hand, attaching to an exported volume is refused. |
| `Membership.MembershipInvariant` | api/v1alpha1/miroirvolume_types.go:208-225 | In every run of edits the spec stays valid and completed legs keep distinct ids in 0..4. |
| `Membership.IdStable` | internal/membership/autodiskful.go:173-206 | Every id held after an edit was held by that node before it, or is the one a completion gives to the leg it completes. |
| `Membership.IdSurvives` | internal/membership/autodiskful.go:173-206 | After every edit a leg that is still there holds the id it had. |
| `Membership.EvictionKeepsCleanCopies` | internal/membership/autoevict.go:285-429 | Evicting a diskful leg keeps every other diskful leg, each published UpToDate, not split and disconnected from the dead one, and no fewer than two diskful legs. |
| `Membership.NextNodeID` | internal/membership/reconciler.go:291-304 | The search ends at the lowest id no other completed leg holds, within 0..4 on a valid spec. |
| `Membership.CompleteReplicaAccepted` | internal/membership/reconciler.go:183-227 | Completing an entry inherits the volume's pool, so the rules accept it. |
| `Membership.CompleteClientAccepted` | internal/membership/reconciler.go:232-247 | Completing a client leg is accepted and keeps ids distinct. |
| `Membership.AttachAcceptedExactly` | internal/csi/node.go:269-287 | An attach that is made is accepted if and only if the volume is not exported. |
| `Membership.DropClientAccepted` | internal/csi/node.go:301-321 | Dropping a client leg is accepted. |
| `Membership.AddTieBreakerAccepted` | internal/membership/tiebreaker.go:50-110 | The retrofitted tie-breaker is accepted. |
| `Membership.ConvertClientAccepted` | internal/membership/autodiskful.go:173-192 | A client leg turned diskful, tie-breakers dropped, is accepted with its id kept. |
| `Membership.ConvertTieBreakerAccepted` | internal/membership/autodiskful.go:198-206 | A tie-breaker flipped diskful in place is accepted. |
| `Membership.EvictSwapAccepted` | internal/membership/autoevict.go:408-429 | Swapping a dead leg for a bare one of its kind is accepted wherever it stood in the list. |
| `Membership.EvictFlipAccepted` | internal/membership/autoevict.go:380-401 | Flipping the tie-breaker and dropping the dead leg is accepted. |
| `MembershipReconcilers.Complete` | internal/membership/reconciler.go:183-227 | Fills the entry as the completion edit does, or says why not. |
| `MembershipReconcilers.VolumeObject.Reconcile` | internal/membership/reconciler.go:64-139 | One pass completes every entry, touches no completed one, marks diskful newcomers for a full sync and gives every placed node its finalizer, or writes nothing; it keeps the invariant and the transition rules. |
| `MembershipReconcilers.VolumeObject.RetrofitTieBreaker` | internal/membership/tiebreaker.go:50-110 | Adds a tie-breaker exactly when every gate is open, no finalizer of a legless node included. |
| `MembershipReconcilers.VolumeObject.AddClientLeg` | internal/csi/node.go:269-287 | Appends a bare leg exactly when the volume is replicated and has fewer than two. |
| `MembershipReconcilers.VolumeObject.RemoveClientLeg` | internal/csi/node.go:301-321 | Drops the node's client leg if it has one. |
| `MembershipReconcilers.VolumeObject.AutoDiskful` | internal/membership/autodiskful.go:58-146 | Makes an enabled conversion, or none; with conversion allowed, none means no leg has waited long enough or one that has lacks room. |
| `MembershipReconcilers.VolumeObject.Evict` | internal/membership/autoevict.go:243-402 | Makes the eviction edit that is enabled, or finds that none is. |
| `MembershipReconcilers.EvictBlocked` | internal/membership/autoevict.go:285-324 | Lets an eviction pass exactly when every gate of the eviction edits is open. |
| `MembershipReconcilers.SwapReplica` | internal/membership/autoevict.go:408-429 | Survivors, then the replacement by kind, then the other kind. |
| `NodeMap.FromNodes` | internal/nodemap/nodemap.go:174-206 | Marks exactly the nodes that share a replication address, however it is spelled. |
| `NodeMap.PlaceableAddressesDiffer` | internal/nodemap/nodemap.go:174-225 | Two placeable nodes never answer at one address, however it is spelled. |
| `NodeMap.PickSpare` | internal/nodemap/nodemap.go:267-284 | The lowest-named candidate in an unused zone, else the lowest-named, else none. |
| `NodeMap.PickTieBreaker` | internal/nodemap/nodemap.go:249-259 | The spare for a tie-breaker, replica and client nodes used. |
| `NodeMap.PickReplacement` | internal/membership/autoevict.go:436-453 | The spare for a dead leg, whose zone is free again. |
| `Backing.NoLeakedBackingExactly` | internal/agent/reconciler.go:1222-1258 | In every run a node with a backing device holds its finalizer, if and only if entries are added bare and none is both added back under a pending finalizer and completed while its removal is carried out. |
| `Backing.CompletedMidTeardownLeaks` | internal/agent/reconciler.go:1222-1372 | The run in which the slot patch hands the agent the version of a completed re-add. |
| `Backing.AddedPlacedLeaks` | internal/membership/reconciler.go:88-139 | An entry added with its address filled in is realized without a finalizer. |
| `Teardown.TeardownIsolation` | internal/drbd/drbd.go:93-166 | While an adjust, connect or up runs on a resource no other call is inside a sequence on it and no down of it is stranded. |
| `Teardown.OneStrandedDown` | internal/drbd/drbd.go:1352-1475 | At most one down per resource is ever stranded. |
| `Teardown.StrandedBound` | internal/backend/exec.go:90-139 | Stranded children never exceed the limit minus one plus the callers. |
| `Teardown.StrandedBoundIsMet` | internal/backend/exec.go:90-139 | For every positive limit and every set of callers but the empty one, a run strands that many. |
| `Teardown.OverDisconnectExactly` | internal/drbd/drbd.go:152-182 | For every call and each kind of disconnect: some run connects a resource over such a disconnect stuck on it, if and only if the call overlooks that kind, and one stuck child does not open the breaker. |
| `Teardown.RestartMeetsStrandedDisconnect` | internal/drbd/drbd.go:1489-1506 | A restart's up can run while an earlier call's drbdsetup disconnect is stranded. |
| `Teardown.StalledCycleConnectsOverItsOwn` | internal/drbd/drbd.go:1262-1285 | The stalled-target cycle connects over its own stuck disconnect. |
| `Teardown.OverAdm` | internal/drbd/drbd.go:1195-1220 | Every call that connects can do so over the recovery's stuck drbdadm disconnect. |
| `DriverCalls.Driver.DisconnectPeers` | internal/drbd/drbd.go:1368-1382 | Disconnects peers in order, ignoring errors, up to the first that is killed. |
| `DriverCalls.Driver.TearDown` | internal/drbd/drbd.go:1446-1475 | No command under a fingerprint; the first sighting defers, a second in a row reports the wedge, a clean look forgets. The config goes only after a down that succeeded, the minor only after all state files. |
| `DriverCalls.Driver.Restart` | internal/drbd/drbd.go:1489-1506 | No command under a fingerprint; an up only after a down that succeeded. |
| `DriverCalls.CallsPermitted` | internal/drbd/drbd.go:1388-1506 | Every sequence these calls issue is one the protocol permits. |
| `Breaker.Wedge.Stranded` | internal/backend/wedge.go:165-189 | Counts the children still stuck and drops the drained. |
| `Breaker.Wedge.Tripped` | internal/backend/wedge.go:194-214 | Open on a latch, or on as many stuck children as the limit. |
| `Breaker.Wedge.StrandedCommand` | internal/backend/wedge.go:222-235 | True exactly when a stuck child has that command line. |
| `Breaker.Wedge.Latch` | internal/backend/wedge.go:114-123 | The first reason wins. |
| `Breaker.Runner.Run` | internal/backend/exec.go:90-139 | Spawns only past a closed breaker; a child that outlives its kill is recorded before the caller hears of it; no stuck record is lost. |
| `Breaker.OpenExactly` | internal/backend/wedge.go:165-214 | Over any history of records, reaps and reads, the unlatched breaker is open if and only if as many children as the limit were recorded and have been stuck at every look since. |
| `Growth.ReportsTrueExactly` | internal/agent/reconciler.go:1828-1875 | In every run, replicas other than the first leaving at will, all diskful slots at a size mean the device was resized after every backing reached the backing size for it, if and only if no backing is wiped and the first diskful replica stays. |
| `Growth.ExpandNeverEarly` | internal/csi/controller.go:1513-1554 | Whatever lagging state of the volume an expansion reads all slots from, the device was grown. |
| `Growth.SettledForGood` | internal/agent/reconciler.go:1846-1875 | Once every slot reports the spec, no agent resizes the device before the next expansion. |
| `Growth.ReelectionStaysShort` | internal/agent/reconciler.go:1846-1860 | When the first replica leaves mid-growth, a run reports the size on every leg, and from there no run without another expansion grows the device. |
| `Growth.GrowIfCoordinator` | internal/agent/reconciler.go:1846-1875 | Resizes only as coordinator, behind, with all peers grown; otherwise withholds or reports the spec. |
| `Growth.PeerBackingsGrown` | internal/agent/reconciler.go:581-591 | True exactly when every other diskful slot reached the spec. |
| `Sizes.PaddingSuffices` | internal/drbd/drbd.go:480-486 | A padded backing less seven bitmaps covering the padding too, less 1 MiB, still holds the nominal size. |
| `Sizes.BackingMonotone` | internal/agent/reconciler.go:599-604 | Backing size is strictly monotone in the spec size. |
| `Sizes.NoOverflow` | internal/drbd/drbd.go:480-486 | No 64-bit sum behind a padded backing overflows, if and only if the size is at most 0x7FF8_007F_F77F_FFFF. |
| `Sizes.AlignSizeExactly` | internal/backend/zfs.go:137-139 | The mask yields the least block multiple at or above every size if and only if the block is a power of two. |
| `Sizes.ZfsResize` | internal/backend/zfs.go:166-179 | Never shrinks, reaches the size, and leaves a volume that is large enough. |
| `VerifyGuard.VerifyGuardExactly` | internal/agent/reconciler.go:993-1011 | The self-heal never cycles a pair with a finding, in any run, if and only if a failed kick arms nothing, a reconnect resyncs the bits, and neither side acts on an outdated slot. |
| `VerifyGuard.FindingsAccounted` | internal/agent/verify.go:126-233 | Unhealed findings on a connected pair imply a started marker or a recorded finding. |
| `VerifyGuard.Scheduler.VerifyVolume` | internal/agent/verify.go:126-197 | Where a pass leaves the slot, for every way it can end. |
| `FastPath.FastPathRefines` | internal/agent/reconciler.go:382-435 | Whenever the fast path settles a reconcile, a full pass over the same spec, kernel status, slot and probe would publish the slot there, probe time aside, and the phase there. |
| `FastPath.FastPathExactly` | internal/agent/reconciler.go:369-435 | That holds in every run if and only if no fingerprint is stored later after its probe than the stale threshold leaves beyond a fingerprint's own life: 301 whole seconds. |
| `FastPath.FullPassIdempotent` | internal/agent/reconciler.go:316-357 | Repeating a pass that reported the full size changes only the probe time. |
| `FastPath.ComputePhaseAt` | internal/agent/reconciler.go:1919-1965 | The loop computes the phase and the ready count. |
| `FastPath.Realized.FastPath` | internal/agent/reconciler.go:382-435 | The checks, in their order, amount to the fast-path condition. |
| `FastPath.Realized.StoreIfSettled` | internal/agent/reconciler.go:369-373 | Stores a fingerprint exactly for a settled pass. |
| `Minors.MinorsExactly` | internal/drbd/drbd.go:672-802 | No two registered resources share a minor, in any run with crashes between file writes and loss of the assignment file, if and only if none of four departures occurs. |
| `Minors.MinorStable` | internal/drbd/drbd.go:943-978 | Whatever claims a minor for a volume before a step and after it name the same one. |
| `Minors.LossOverZombieShares` | internal/drbd/drbd.go:672-685 | Losing the file while a held-open resource has no config frees its minor. |
| `Minors.ReclaimUnrecordedShares` | internal/drbd/drbd.go:672-685 | So does removing such a config after the loss. |
| `Minors.StaleSlotShares` | internal/agent/reconciler.go:1807-1812 | A slot left by an earlier stay hands out a released minor. |
| `Minors.LossMidPassShares` | internal/drbd/drbd.go:943-978 | So does losing the file between allocation and render. |
| `MinorAllocator.Allocator.AllocateMinor` | internal/drbd/drbd.go:943-978 | A recorded minor, else the own config's, else the lowest no record mentions. |
| `MinorAllocator.Allocator.ScanUsed` | internal/drbd/drbd.go:1043-1065 | Exactly the minors some record mentions. |
| `MinorAllocator.Allocator.ReleaseOrphanedAssignments` | internal/drbd/drbd.go:777-802 | Drops exactly the assignments with no owner, no resource and no config. |
| `MinorFiles.RoundTripExactly` | internal/drbd/drbd.go:1009-1041 | Reading back written assignments is the identity if and only if every name is non-empty, starts with no white space and has no space or newline. |
| `MinorFiles.ReadAssignments` | internal/drbd/drbd.go:1009-1033 | The loop over lines, later lines winning. |
| `ResFile.RenderedMinor` | internal/drbd/res.go:117-215 | Every minor parsed from a rendered config is the one rendered, once per peer. |
| `ConfigText.MinorsInRes` | internal/drbd/drbd.go:983-994 | The scan over lines. |
| `Placement.CapacityAgreesExactly` | internal/csi/controller.go:1816-1876 | For every size, replica count, segment that carries the pool and request it leads, whatever follows it, placement admits exactly the sizes up to the reported capacity, if and only if every candidate has fresh stats. |
| `Placement.OffPoolAgreesExactly` | internal/csi/controller.go:583-612 | A request led by a node without the pool ends as that node's capacity says for every size, if and only if: pinned with remote access, fewer nodes than replicas have more room than the pin; pinned without, nothing fits behind the pin; unpinned, remote access or a requisite decides or nothing fits. |
| `Placement.RotationRefuses` | internal/csi/controller.go:583-612 | With remote access, a full node behind the selected one is pinned and refuses what the cluster holds. |
| `Placement.RotationAdmits` | internal/csi/controller.go:583-612 | Without it, a volume is placed behind a node whose capacity is nothing. |
| `Placement.GetCapacity` | internal/csi/controller.go:1816-1876 | The sizes up to the answer are exactly those enough nodes have room for. |
| `Placement.Place` | internal/csi/controller.go:510-662 | Refuses exactly when the request is not admitted; otherwise the pin first, distinct candidates with room, positional ids, no choice with more failure domains, and a candidate with room passed over for a worse ranked one shares its zone with a better ranked pick or the pin; unresolved exactly when a replicated leg's node has no address. |
| `Placement.TopologyPick` | internal/csi/controller.go:699-713 | The first entry that names a candidate pins it, unless one before it names an excluded node; matched exactly when some entry names either. |
| `ZoneSpread.SpreadByZone` | internal/csi/controller.go:908-931 | Exactly count distinct nodes, the pinned prefix first, with the most failure domains of any such choice; none is passed over for one ranked after it unless it has a named zone that a pick before it holds; within a zone the first-ranked are taken, and without zones it is the head of the ranking. |
| `Reshape.ReshapeRestore` | internal/csi/controller.go:753-816 | Fails exactly for want of a place or of an address for a leg or the tie-breaker. Otherwise exactly target diskful legs on distinct nodes, a complete one first, complete exactly where a source leg is, a pinned complete leg kept, ids distinct and those of cloned metadata unchanged, a tie-breaker exactly when wanted and a spare exists; an unreplicated target sheds id and address. |
| `Reshape.PlaceRestore` | internal/csi/controller.go:467-484 | From request to layout: each refusal exactly when its cause is there, a missing address of a leg or of the tie-breaker included, and otherwise as many legs as asked for, the first a copy, each skipping its full sync exactly where the snapshot was cut, ids of cloned metadata unchanged, a tie-breaker exactly when wanted and a spare exists; a shrink without remote access keeps a complete leg on the selected node, or else within the requisite. |
| `Reshape.KeepRestoreLegs` | internal/csi/controller.go:823-845 | Keeps the seed, then the pin, then complete legs before the rest. |
| `Reshape.ShrinkPin` | internal/csi/controller.go:858-885 | Refuses exactly when neither the selection nor the hard topology admits a complete leg. |
| `Reshape.NumberLegs` | internal/csi/controller.go:789-815 | Distinct ids around those that stay. |
| `Reshape.FreeId` | internal/csi/controller.go:716-726 | The search ends at the smallest unused id. |
| `Reshape.WithTieBreaker` | internal/csi/controller.go:669-691 | A tie-breaker on the spare node with the smallest unused id, exactly when one is wanted and a spare exists; fails exactly when that node has no address. |
| `Reshape.RestoreReplicas` | internal/csi/controller.go:1967-2000 | The source's legs with their ids, addresses resolved anew, full sync exactly for diskful legs without the snapshot; refused exactly when the seed has none or an address is gone. |
| `Reshape.PlacedFillsGap` | internal/csi/controller.go:772-787 | What placement returns for a grow fills the gap on nodes that held no leg. |

## Left out

- Process execution, command text and error strings: a command succeeds, fails, is killed or is stranded.
- Kubernetes client, cache and event plumbing: an object with atomic writes, version-checked where the code checks, and caches that lag where the proof allows it.
- Filesystem freeze and thaw, writeback draining, kernel-log and /proc parsing.
- DRBD's own resync and split-brain behaviour: only the gates around it.
- Mounts, NFS export, CSI server wiring, metrics, events, log lines.
- Float arithmetic of the overcommit ratios: a pool's headroom on a node is one non-negative number, and provisioned sizes are part of it.
- Snapshot and group rounds fix their diskful legs for the length of a round, take one clock for all nodes, and delete a node's leftover snapshots when its cut is admitted rather than one by one.
- BarrierOwnership.BarrierOwned: a suspend and its slot, and a sibling check and its resume, are one step each; with them apart a resume can race a sibling's raise. Health gates and the election of a driver only narrow who acts and are left open.
- BarrierOwnership.OwnLiftExactly: which node drives a round and whether its legs are healthy is left open, so the code lifts in fewer states than the equivalence names.
- Membership: the age thresholds of conversions and evictions, except in AutoDiskful; the choice of which stale node to evict; labels and PVC references.
- Backing: unreplicated volumes, whose single entry never changes; the health gates that only delay a removal.
- Teardown: the orphan sweep at start, before any other caller; a crash of the agent, which forgets its stranded children.
- Breaker.Wedge.Stranded: reads all of /proc at one moment; a child recorded during the read is kept, as in the code, but not modelled.
- Growth: a diskful replica that joins during a growth; whether DRBD lets a smaller disk connect is its own rule.
- NodeMap.FromNodes: parsing an IP address, which is a parameter.
- Minors: two names never share a file, and each config holds one minor.
- MinorFiles.RoundTripExactly: the atomic rename is one write.
- ResFile.RenderedMinor: peers are listed in node-id order already; unprintable characters other than newline, return and tab are quoted as themselves; names and addresses hold no newline, as Kubernetes names and IP addresses never do.
- Placement.Place: a retry of the same volume name excludes the volume's own provisioned bytes; not modelled.
- VerifyGuard: one coordinator, fixed for the run; a verify that another node's coordinator starts on the same pair is not modelled.
- FastPath: the device path, which is a function of the minor; unreplicated volumes, which have no kernel status.
- Node drain, demotion at shutdown, snapshot deletion, port allocation, poolRoom's staleness rule: easy or independent of the above.

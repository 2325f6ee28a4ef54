# A recorder's protocols and derived stores, modelled and proved

The system records cameras on many servers. This project models, in Dafny, the
parts of it whose correctness spans several functions and every interleaving:

* **The store.** Rows under paths with one index for the whole store, and writes
  that carry the index they read (`variables.dfy`, `records.dfy`); the in-memory
  store through several writers (`views.dfy`).
* **Identity, epochs, leases.** A worker process claims its name, takes an epoch
  per camera and a lease on it, reconciles what runs with what it is assigned,
  and fences itself when superseded (`contract.dfy`, `slots.dfy`, `epochs.dfy`,
  `epoch_deletion.dfy`, `leases.dfy`, `lease_sim.dfy`, `worker.dfy`,
  `worker_laws.dfy`, `pass_laws.dfy`, `claim_laws.dfy`); many of them share one
  key store (`worker_fleet.dfy`).
* **Placement.** Controllers place cameras over the same store, racing or one at
  a time; a reference placer carries real loads, capacities and labels
  (`placement_race.dfy`, `placement_laws.dfy`, `placement_crash.dfy`,
  `placement_counts.dfy`, `controller.dfy`, `controller_laws.dfy`,
  `controller_moves.dfy`, `placer.dfy`, `placer_laws.dfy`, with the arithmetic in
  `spread.dfy` and `finite_sets.dfy`).
* **Derived stores.** The archive and its manifests, the timeline, the event log
  and its index, the peer mirrors, retention under disk pressure (`paths.dfy`,
  `archive.dfy`, `archive_laws.dfy`, `archive_lines.dfy`, `archive_crash.dfy`,
  `archive_repair.dfy`, `timeline.dfy`, `timeline_laws.dfy`, `eventlog.dfy`,
  `eventindex.dfy`, `eventindex_laws.dfy`, `eventindex_reach.dfy`,
  `eventindex_open.dfy`, `peers.dfy`, `mirror.dfy`, `mirror_laws.dfy`, `mirror_sends.dfy`,
  `retention.dfy`, `retention_laws.dfy`, over `stable_sort.dfy`).

## How it is modelled

Code that changes things step by step is a class or a method with loops, each
proved against a function of the old state; the laws are lemmas about those
functions. Protocols are step functions over a state, and their theorems quantify
over all event lists: each read and each write is its own step, any number of
processes interleave, and any of them may stop for ever or wake late. A method
that reads and later writes the shared store takes, as a parameter, everything
the other clients do in between. What the network, the clocks, a pipeline or
another server would answer is a parameter too, and may always be "no answer".

Clocks, loads and usage are reals. A file system is a map. The timestamp
formatter is taken as injective, so a file name carries its whole second.

Instance ids are unique, epoch keys and slot rows are never deleted, segment
paths are fresh (one epoch, one writer, one second), and segment rows have
distinct paths. The lemmas that need one of these say so.

## What turned out false of the code

The code was kept and the exact condition proved.

* CAS alone does not stop an epoch from being issued twice: a key that was
  deleted reads as index 0. A CAS is accepted exactly when the row is untouched,
  or was absent and is absent again (`Variables.CasAcceptedExactlyWhen`,
  `Variables.DeletedRowFoolsCas`); an epoch is issued twice exactly when its key
  is deleted between two issues (`EpochDeletion.IssuedTwiceExactlyWhenDeleted`,
  `EpochDeletion.ReissueRun`).
* In the in-memory store of the cluster, `as_writer` copies the index counter
  with the rest of the view while the rows stay shared. Two views can then give
  one row the same index twice (`ForkedViews.ForkFoolsCas`); a CAS is accepted
  exactly when the row is untouched or the last write left the index that was
  read (`ForkedViews.CasThroughViewsExactlyWhen`). The other theorems are about
  one view (`ForkedViews.OneViewIsTheStore`).
* `place` returns early on an existing row, so a controller that stops between
  row and assignment strands the camera for good (`PlacementRace.CrashStrands`,
  `PlacementRace.StrandedStaysStranded`): exactly when every call that got to
  the row failed there (`PlacementCrash.StrandedExactlyWhen`). A caller is given
  a worker that does not list its camera exactly when it found the row set and
  the camera unlisted (`PlacementCrash.ReturnedAndListedExactlyWhen`).
* The capacity check is check-then-act: two controllers can overfill a worker
  (`PlacementRace.TwoControllersOvercommit`). They can exactly when what it has
  and what calls in flight are bringing exceeds its capacity; where each choice
  found room, by at most one less than the calls running at once
  (`PlacementLaws.OverfillsExactlyWhen`, `PlacementLaws.OvercommitIsBounded`). A call in flight is counted where its
  camera's row points once that is set, whoever set it: a call still before the
  row adopts it, even when the controller that set it is dead.
* A clean `tail` pass equals a rebuild exactly when every bucket seen before is
  still listed (`EventIndexLaws.UnlistedBucketStays` is a pass that differs).
* The documentation speaks of closed buckets, but the resource lists open ones
  too, and a bucket once indexed is never read again. The index is current
  exactly when no bucket was appended to after the pass that read it, and
  always if only closed buckets are listed (`EventIndexOpen`).
* A restore brings back exactly the owner's closed buckets only if no copy has
  outlived its original, since retention on the owner deletes no copies
  (`MirrorLaws.RestoreBringsBackExactlyWhen`, `MirrorLaws.RetainedBucketComesBack`).
* `parse` accepts leading zeros in the camera directory, `repair` looks only
  under the canonical one: a promoted segment keeps its line exactly when the
  directory is canonical (`ArchiveCrash.NamedExactlyWhenCanonical`,
  `ArchiveCrash.OddDirectoryLosesItsLine`).
* `repair` walks the files and replaces the manifest later: a promotion that
  ends in between loses its line until the next repair. Exactly the segments
  there at the walk have their line (`ArchiveRepair.NamedExactlyWhenSeen`,
  `ArchiveRepair.PromotedMeanwhileIsUnnamed`).
* A renewal reads the key and then stamps the clock: the lease bound has the
  renewal's own delay in it (`Leases.StopsInTime`, `Leases.SlowRenewalWritesOn`).
* The comment on the orphan sweep says that old orphans are unlinked; the code
  reports them and unlinks nothing (`Retention.Node.SweepOrphans`,
  `Retention.Node.Enforce`).
* A pass of `_from_mirror` counts as "from mirror" when a holder exists, even if
  no holder answers (`EventIndexLaws.ReportIs`).
* With no cameras configured, retention enforces nothing, however full the disk
  (`Retention.Node.Enforce`).
* Rows of cameras that no longer exist are invisible to the give-up queue, so
  giving up everything empties the index exactly when every row's camera is
  known (`RetentionLaws.EmptiedExactlyWhen`, `RetentionLaws.GoneCameraKeepsItsRow`).

## Model

| member | source | states |
|---|---|---|
| `Variables.CasAcceptedExactlyWhen` | М11_ClusterVMS/clustervms/cluster/variables.py:108-136 | through one view of the store, a PUT with the index of an earlier read is accepted iff no write has taken effect on the row since, or it was absent then and is absent again |
| `Variables.TouchedMovesIndex` | М11_ClusterVMS/clustervms/cluster/variables.py:115-136 | through one view, over any run of writes, an untouched row keeps index and items, and a touched one never shows an old index again (0 if deleted) |
| `ForkedViews.OneViewIsTheStore` | М11_ClusterVMS/clustervms/cluster/variables.py:94-124 | while all requests go through one view, rows and counter are the store with its one index |
| `ForkedViews.CasThroughViewsExactlyWhen` | М11_ClusterVMS/clustervms/cluster/variables.py:94-136 | through several views, whose counters fork, it is accepted iff no request has taken effect on the row since or the last that did left the same index |
| `ForkedViews.ForkFoolsCas` | М11_ClusterVMS/clustervms/cluster/variables.py:94-124 | a run in which two views give a row one index, and a CAS is accepted on a row that was written |
| `Variables.CasAcceptedMeansUntouched` | М10_ServerVMS/vmsserver/vmsplatform/variables.py:74-107 | without deletions of that path, acceptance is exactly "untouched since the read" |
| `Variables.DeletedRowFoolsCas` | М10_ServerVMS/vmsserver/vmsplatform/variables.py:98-107 | create and delete between read and write: the CAS is accepted although the row was written |
| `Variables.FakeVariables.Get` | М11_ClusterVMS/clustervms/cluster/variables.py:108-114 | the items and index of a row, nothing and 0 for a missing one |
| `Variables.FakeVariables.PutItems` | М11_ClusterVMS/clustervms/cluster/variables.py:115-124 | the whole new store; succeeds iff the CAS index is current; the row's index is the store's new one |
| `Variables.FakeVariables.Remove` | М11_ClusterVMS/clustervms/cluster/variables.py:129-136 | the whole new store; succeeds iff the CAS index is current |
| `Paths.SpanPathInjective` | М10_ServerVMS/vmsserver/vms/archive.py:53-54 | two spans share a path only if they share subsystem, unit, epoch and leaf |
| `Paths.SegmentPathReadsBack` | М10_ServerVMS/vmsserver/vms/archive.py:53-64 | `parse` of a written segment path gives camera, epoch and start back |
| `Paths.BucketPathReadsBack` | М10_ServerVMS/vmsserver/vmsplatform/events.py:39-52 | `parse_bucket` of a written bucket path gives its key back |
| `Paths.ParsePrintsBackExactlyWhen` | М10_ServerVMS/vmsserver/vms/archive.py:57-64 | a parsed path is the one the writer would write iff both numerals are canonical |
| `Epochs.NextEpoch` | М10_ServerVMS/vmsserver/vmsplatform/epoch.py:17-26 | the retry loop among other clients: the epoch is one more than the key's at the write; every earlier try was overtaken; giving up writes nothing |
| `Epochs.EpochsAreExactlyOneToN` | М10_ServerVMS/vmsserver/vmsplatform/epoch.py:17-26 | over every interleaving the epochs issued for a unit are 1..n in order, each once |
| `Epochs.NoSharedEpoch` | М10_ServerVMS/vmsserver/vms/worker.py:115-126 | no two instances ever hold or run one epoch of a unit, at the same time or at different times |
| `Epochs.PathSetsDisjoint` | М10_ServerVMS/vmsserver/vms/archive.py:53-54 | over a whole run, zombies included, the paths two instances write are disjoint |
| `Epochs.FencedForEver` | М10_ServerVMS/vmsserver/vms/worker.py:165-183 | in the interleaved protocol a fenced instance runs and writes nothing ever after |
| `Epochs.FenceStops` | М10_ServerVMS/vmsserver/vms/worker.py:165-183 | after any run, from its fence on an instance is not allowed, runs nothing and writes no path it had not written |
| `Epochs.LiveRun` | М10_ServerVMS/vmsserver/vms/worker.py:115-129 | and until then it does all that: a run that takes epoch 1, records and observes |
| `Epochs.StoppedWritesNothing` | М10_ServerVMS/vmsserver/vms/worker.py:127-129 | after a stop no segment of the unit is written until it is launched again |
| `Epochs.ReleasedObservesNothing` | М10_ServerVMS/vmsserver/vmsplatform/contract.py:333-335 | after a release no event of the unit is written until an epoch is taken again |
| `EpochDeletion.IssuedTwiceExactlyWhenDeleted` | М10_ServerVMS/vmsserver/vmsplatform/epoch.py:17-26 | with deletions of keys in the run, an epoch of a unit is issued twice iff its key is deleted between two issues for it |
| `EpochDeletion.ReissueRun` | М10_ServerVMS/vmsserver/vmsplatform/variables.py:98-107 | a run in which epoch 1 is issued to two instances |
| `Leases.RenewsExactlyWhenNewest` | М10_ServerVMS/vmsserver/vmsplatform/epoch.py:43-54 | after any run, an answered renewal succeeds iff at its read the store's epoch was the lease's own, that is, it was not superseded then; only a success moves the clock, and a failure fences |
| `Leases.SupersededNeverRenews` | М10_ServerVMS/vmsserver/vmsplatform/epoch.py:43-54 | once superseded with no renewal in flight, none ever succeeds again, and at most one conflict is counted |
| `Leases.StopsInTime` | М10_ServerVMS/vmsserver/vmsplatform/epoch.py:34-57 | writes stop no later than TTL - margin after the later of the takeover (plus the renewal's delay) and the lease's creation |
| `Leases.SlowRenewalWritesOn` | М10_ServerVMS/vmsserver/vmsplatform/epoch.py:47-53 | the delay in that bound is reached |
| `LeaseSim.SimulateClocks` | М11_ClusterVMS/reference/lease.py:19-44 | the loop for any holder clock: zero overlap on a fast enough one, positive overlap at the first replacement in a long partition on a too slow one |
| `LeaseSim.Simulate` | М11_ClusterVMS/reference/lease.py:19-44 | zero overlap whenever rate * (TTL + margin) >= TTL - margin; positive overlap in every long partition with rate * (TTL + margin + step) < TTL - margin |
| `Slots.GenCountsClaims` | М10_ServerVMS/vmsserver/vmsplatform/contract.py:221-318 | over every run, `gen` counts a slot's successful claims and its holder is the latest claimer |
| `Slots.ClaimGoesFor` | М10_ServerVMS/vmsserver/vmsplatform/contract.py:273-279 | without a preference a claim goes on to its write iff the slot read has no holder, was let go of, or is past its time |
| `Slots.ReadThenWrite` | М10_ServerVMS/vmsserver/vmsplatform/contract.py:221-318 | with nobody in between: a claim makes the row this process's in its next generation, a renewal gives its holder more time, a release and a retirement say it is let go of; only the row's own holder renews or releases |
| `Slots.RetiredIsClaimed` | М10_ServerVMS/vmsserver/vmsplatform/contract.py:221-286 | a run in which a slot retired while its holder had time left is claimed at once |
| `Slots.SupersededStaysOut` | М10_ServerVMS/vmsserver/vmsplatform/contract.py:288-318 | a superseded instance can neither renew nor release the slot again without claiming it, not even with a write prepared before |
| `Slots.NamesPairwiseDistinct` | М10_ServerVMS/vmsserver/vmsplatform/contract.py:254-286 | claims without a preference within one TTL end with pairwise distinct names |
| `Slots.AfterTheTtlNamesCollide` | М10_ServerVMS/vmsserver/vmsplatform/contract.py:264-284 | past the TTL two live processes can hold one name |
| `Slots.NextNameIsUnused` | М10_ServerVMS/vmsserver/vmsplatform/contract.py:128-130 | the number a claim falls back to is in no known name |
| `Slots.NumberReadsBack` | М10_ServerVMS/vmsserver/vmsplatform/contract.py:128-130 | the number of a written name is read back; any other tail counts as 0 |
| `Contract.Write` | М10_ServerVMS/vmsserver/vmsplatform/contract.py:140-153 | a read-modify-write that lands changed the row as it was at the write, whoever wrote last; every try before it was overtaken; one that does not land wrote nothing, and one that gives up was overtaken every time |
| `Contract.AssignAdd` | М10_ServerVMS/vmsserver/vmsplatform/contract.py:179-187 | unless it was overtaken on every try, the unit is listed and no other unit came or went |
| `Contract.AssignRemove` | М10_ServerVMS/vmsserver/vmsplatform/contract.py:189-195 | unless it was overtaken on every try, the unit is not listed and no other unit came or went |
| `Contract.RetireSlot` | М10_ServerVMS/vmsserver/vmsplatform/contract.py:221-231 | marks the slot as it is at the write released, keeping holder and generation |
| `ClaimLaws.CandidatesAre` | М10_ServerVMS/vmsserver/vmsplatform/contract.py:266-272 | tried are exactly the slots with no holder, let go of whatever their time, or past it, each once: those past it first, longest ago leading, then by number, then a name nobody has |
| `Contract.Worker.ClaimSlot` | М10_ServerVMS/vmsserver/vmsplatform/contract.py:254-286 | among other clients acting before and after every read: each candidate before the one taken was not to be had when read, or was overtaken; the name taken was, at the write, claimable or preferred, and its row becomes this instance's next generation; without a name that holds of every candidate of every round and nothing was written |
| `ClaimLaws.RefusedExactlyWhen` | М10_ServerVMS/vmsserver/vmsplatform/contract.py:273-283 | a try fails iff, with no preference, the row as read has a holder, is not released and not past its time; or another client has written the row by the write, other than making and deleting it |
| `ClaimLaws.RefusedEach` | М10_ServerVMS/vmsserver/vmsplatform/contract.py:273-286 | that all tries were refused says of each that it was, begun where those before it left the store |
| `ClaimLaws.WrittenSlotIsRead` | М10_ServerVMS/vmsserver/vmsplatform/contract.py:114-119 | a row written is read as written and no other changes; a row that is not there is nobody's |
| `ClaimLaws.TakenWasNobodys` | М10_ServerVMS/vmsserver/vmsplatform/contract.py:276-279 | what was taken without a preference was, at the write, released, without a holder or past its time |
| `ClaimLaws.LetGoIsTaken` | М10_ServerVMS/vmsserver/vmsplatform/contract.py:221-231 | a row that says released is among the candidates whatever its time, and a try nobody overtakes takes it |
| `Contract.Worker.RenewSlot` | М10_ServerVMS/vmsserver/vmsplatform/contract.py:288-303 | true iff still the holder at the read and no write since; the generation stays |
| `Contract.Worker.ReleaseSlot` | М10_ServerVMS/vmsserver/vmsplatform/contract.py:305-318 | the row says released iff it was still this instance's to say; another's slot is left alone |
| `Contract.Worker.TakeEpoch` | М10_ServerVMS/vmsserver/vmsplatform/contract.py:324-331 | the next epoch at the write, and a lease on it stamped afterwards |
| `PlacementRace.RowsAndListingsAreStable` | М10_ServerVMS/vmsserver/vms/controller.py:132-156 | among any controllers placing at once, a set placement row never changes and no listing is lost |
| `PlacementRace.ListedOnlyWhereTheRowSays` | М11_ClusterVMS/clustervms/cluster/controller.py:36-70 | a camera is listed only on the worker its row names, and that worker's labels cover the camera's |
| `PlacementRace.EveryPlacedCameraIsListedOnce` | М10_ServerVMS/vmsserver/vms/controller.py:132-156 | once every call has returned normally, each placed camera is listed on exactly the worker its row names |
| `PlacementRace.CallersAgree` | М10_ServerVMS/vmsserver/vms/controller.py:148-156 | any two calls for a camera that return a worker return the same one |
| `PlacementCounts.RevisionsCount` | М10_ServerVMS/vmsserver/vms/controller.py:148-156 | over every run, a placement row that was set is exactly one revision on, and an assignment row as many as it has cameras more: no write is made twice or in vain |
| `PlacementCounts.GivenUp` | М10_ServerVMS/vmsserver/vms/controller.py:145-146 | a call that finds no worker with room returns nobody and has written nothing |
| `PlacementRace.StrandedStaysStranded` | М10_ServerVMS/vmsserver/vms/controller.py:136-138 | a placed, unlisted camera nobody works on stays unlisted through any further calls |
| `PlacementCrash.StrandedExactlyWhen` | М10_ServerVMS/vmsserver/vms/controller.py:132-156 | with no call for it in flight, a camera is placed and unlisted iff its row was set since the quiet start and every call that set or adopted the row failed before its assignment |
| `PlacementCrash.GotToTheRowMeans` | М10_ServerVMS/vmsserver/vms/controller.py:148-156 | a finished call counts as having set or adopted the row iff some state of the run had it between row and assignment |
| `PlacementCrash.ReturnedAndListedExactlyWhen` | М10_ServerVMS/vmsserver/vms/controller.py:136-156 | at the moment a call returns a worker, its camera is listed there iff the row was unset when the call began, or the camera was listed then |
| `PlacementRace.CrashStrands` | М10_ServerVMS/vmsserver/vms/controller.py:153-155 | and a controller that dies after the row does it |
| `PlacementRace.TwoControllersOvercommit` | М10_ServerVMS/vmsserver/vms/controller.py:139-146 | two controllers, each finding room, put two cameras on a worker with one place |
| `PlacementLaws.CapacityHoldsInARace` | М10_ServerVMS/vmsserver/vms/controller.py:139-156 | if every choice of a run fits its worker, counting what calls in flight are bringing there, no state of the run has more on it than its capacity |
| `PlacementLaws.OverfillsExactlyWhen` | М10_ServerVMS/vmsserver/vms/controller.py:147-156 | the calls in flight can overfill a worker with no further choice iff what it has and what they are bringing exceeds its capacity |
| `PlacementLaws.EverythingOwedCanLand` | М10_ServerVMS/vmsserver/vms/controller.py:147-156 | and in some run everything they are bringing lands, and nothing else |
| `PlacementLaws.OvercommitIsBounded` | М10_ServerVMS/vmsserver/vms/controller.py:139-156 | with at most m calls running at once, each choosing a worker with room, no worker is ever more than m - 1 cameras over, crashes included |
| `VmsController.Controller.Place` | М10_ServerVMS/vmsserver/vms/controller.py:132-156 | the loop over workers and both writes, as one function of the tables |
| `VmsController.Controller.MoveTo` | М10_ServerVMS/vmsserver/vms/controller.py:170-180 | off every other worker, then the row, then onto the destination |
| `VmsController.Controller.Redistribute` | М10_ServerVMS/vmsserver/vms/controller.py:182-198 | the nested loops drain the released slots in order |
| `VmsController.Controller.Rebalance` | М10_ServerVMS/vmsserver/vms/controller.py:206-222 | the budgeted loop makes the moves of the step function |
| `ControllerMoves.PlaceWrites` | М10_ServerVMS/vmsserver/vms/controller.py:132-156 | exactly what a placement writes: nothing, or one row and one list, each a revision on, at the first worker with most room |
| `ControllerMoves.MoveWrites` | М10_ServerVMS/vmsserver/vms/controller.py:170-180 | exactly what a move writes: the row, and every list that changes, a revision on; no other |
| `ControllerMoves.MovesExactlyWhen` | М10_ServerVMS/vmsserver/vms/controller.py:210-221 | a turn moves a camera iff there are two workers, the loads of the ends are the dead band apart, the fuller lists something and the other has room; it moves the least camera of the first most loaded to the first least loaded |
| `ControllerLaws.PlaceRespectsCapacity` | М10_ServerVMS/vmsserver/vms/controller.py:132-156 | a placed camera is not moved; refused iff no worker has room; otherwise to one with most room; nobody is pushed over capacity |
| `ControllerLaws.BestIsFirstMaximum` | М10_ServerVMS/vmsserver/vms/controller.py:139-144 | the choice is the first worker with the most free capacity |
| `ControllerLaws.RedistributeConserves` | М10_ServerVMS/vmsserver/vms/controller.py:182-198 | from cameras listed once: the listed set is conserved, each moved camera is only at its last destination, no destination exceeds its capacity, other slots lose nothing |
| `ControllerLaws.DrainStopsOnlyWhenFull` | М10_ServerVMS/vmsserver/vms/controller.py:190-197 | a camera stays on a released slot only if no live worker has room |
| `ControllerLaws.LapsedSlotKeepsItsCameras` | М10_ServerVMS/vmsserver/vmsplatform/contract.py:213-219 | a slot that merely lapsed keeps every camera and every row naming it |
| `ControllerLaws.ExtremesAre` | М10_ServerVMS/vmsserver/vms/controller.py:212-215 | the two ends of a rebalance move are the extremes of load over capacity |
| `ControllerLaws.NextMoveLowersPotential` | М10_ServerVMS/vmsserver/vms/controller.py:206-222 | with capacities above 10 each move lowers the sum of load^2 / capacity by at least 1/55 |
| `ControllerLaws.RebalanceStops` | М10_ServerVMS/vmsserver/vms/controller.py:206-222 | at most 55 times the initial sum moves, whatever the budget; with a larger budget nothing is left to move |
| `ControllerLaws.RebalanceNeverRepeats` | М10_ServerVMS/vmsserver/vms/controller.py:206-222 | no assignment of cameras comes back |
| `ControllerLaws.RebalanceContinues` | М10_ServerVMS/vmsserver/vms/controller.py:206-222 | a run may be cut anywhere and continued |
| `Placer.Placer.Place` | М11_ClusterVMS/reference/placement.py:51-65 | refused iff no eligible node has room; otherwise to an eligible node with most free capacity; nobody over capacity |
| `Placer.Placer.Remove` | М11_ClusterVMS/reference/placement.py:67-68 | takes that camera out and nothing else; a sound placement stays sound |
| `Placer.Placer.AddNode` | М11_ClusterVMS/reference/placement.py:70-71 | adding a node moves nothing |
| `Placer.Placer.RemoveNode` | М11_ClusterVMS/reference/placement.py:73-83 | soundness is restored after being broken mid-loop; other cameras stay; the homeless are exactly those removed, and nothing has room for them |
| `Placer.Placer.Rebalance` | М11_ClusterVMS/reference/placement.py:86-107 | the moves of the loop one by one, each sound and conserving the placed set; fewer than the budget only if nothing can move |
| `Placer.Placer.Perform` | М11_ClusterVMS/reference/placement.py:44-118 | over every sequence of operations, and of changes to the descriptions of cameras not placed, no node exceeds capacity and every camera sits on an existing node with its labels |
| `PlacerLaws.SoundMeans` | М11_ClusterVMS/reference/placement.py:44-68 | sound is: every placed camera is known, on an existing node that has each of its labels, and no node carries more than its capacity |
| `PlacerLaws.RoomMeans` | М11_ClusterVMS/reference/placement.py:51-65 | a node has room for a camera iff with it there it would be within capacity, and it has each of its labels |
| `PlacerLaws.LoadMeans` | М11_ClusterVMS/reference/placement.py:44-45 | the load of a node is the sum of the loads placed on it |
| `Placer.MoveLowersPotential` | М11_ClusterVMS/reference/placement.py:86-107 | with loads below a tenth of every capacity each move strictly lowers the sum of load^2 / capacity |
| `Placer.NeverRepeats` | М11_ClusterVMS/reference/placement.py:86-107 | no camera-to-node assignment repeats |
| `Placer.RebalanceStops` | М11_ClusterVMS/reference/placement.py:86-107 | fewer moves than there are ways to seat the cameras, whatever the budget |
| `Placer.BigCameraNeverSettles` | М11_ClusterVMS/reference/placement.py:93-106 | without the bound on loads the loop can move one camera to and fro |
| `VmsWorker.Worker.ReconcileOnce` | М10_ServerVMS/vmsserver/vms/reconciler.py:30-52 | both loops, with the actions reported, and what an exception leaves |
| `VmsWorker.Worker.LeasePassOnce` | М10_ServerVMS/vmsserver/vms/worker.py:143-163 | renew all; let go of lost cameras no longer assigned; fence on one still assigned, and stop there |
| `VmsWorker.Worker.PumpOnce` | М10_ServerVMS/vmsserver/vms/worker.py:185-193 | posted events in order, then the dead, each lost and observed silent |
| `PassLaws.ReconcileIs` | М10_ServerVMS/vmsserver/vms/reconciler.py:30-46 | camera by camera: put off or up to date, nothing of it changes or is reported; otherwise its epoch, lease, pipeline, revision and failures, and the one action reported; the pass raises iff some call for an epoch gets no answer, and no later row is touched |
| `PassLaws.ReconcileStops` | М10_ServerVMS/vmsserver/vms/reconciler.py:47-52 | a running camera that no enabled row names is stopped and let go, unless the pass has raised |
| `PassLaws.BackoffIsBounded` | М10_ServerVMS/vmsserver/vms/reconciler.py:54-58 | each failure counts one more and puts the next try between half and all of the wait away |
| `PassLaws.DelayDoubles` | М10_ServerVMS/vmsserver/vms/reconciler.py:54-58 | without jitter the first wait is 2 seconds and each next twice the last, up to the maximum |
| `PassLaws.LeasePassFences` | М10_ServerVMS/vmsserver/vms/worker.py:143-171 | for every lease pass: the worker is fenced iff its slot is held by another, or its assignment was read and a camera still in it has a lease that did not renew; nothing runs then; with no answer about the slot nothing happens |
| `PassLaws.LeasePassLetsGo` | М10_ServerVMS/vmsserver/vms/worker.py:151-159 | a pass that does not fence lets go of exactly the cameras whose lease did not renew; every other lease asked about is stamped or left |
| `PassLaws.PumpTells` | М10_ServerVMS/vmsserver/vms/worker.py:173-193 | what is observed is what was posted and then the silence of each dead camera, one by one in order, each under the epoch held and none without one; nothing when fenced |
| `PassLaws.PumpLoses` | М10_ServerVMS/vmsserver/vms/reconciler.py:54-62 | a dead camera is off and has one failure more for each time it is named; the others are as they were |
| `PassLaws.LiveRun` | М10_ServerVMS/vmsserver/vms/worker.py:115-193 | a run from a fresh start that takes an epoch, starts a pipeline and observes an event under it |
| `WorkerFleet.PipelinesChangeOnlyUnderALease` | М10_ServerVMS/vmsserver/vms/worker.py:115-129 | over every run of passes, a pipeline that was not running so before is a reconcile pass's, on a worker not fenced, checked against a lease still young enough, under the epoch held or, from stopped, the one that pass was issued |
| `WorkerFleet.WorkersNeverShareAnEpoch` | М10_ServerVMS/vmsserver/vms/worker.py:115-193 | two workers, each with any settings, passes, clocks and failures, taking epochs from one store in any interleaving: no epoch of a camera that one ever holds, runs or observes under is the other's |
| `WorkerFleet.WorkersWriteApart` | М10_ServerVMS/vmsserver/vms/archive.py:53-54 | so no path of the one is a path of the other |
| `WorkerLaws.EveryRunKeepsInv` | М10_ServerVMS/vmsserver/vms/worker.py:115-193 | over all passes: running within believed within epochs, each running pipeline under the epoch and revision recorded for it |
| `WorkerLaws.FencedForEver` | М10_ServerVMS/vmsserver/vms/worker.py:165-183 | once fenced, a worker runs nothing and observes nothing for ever |
| `WorkerLaws.ConvergedMeansRunning` | М10_ServerVMS/vmsserver/vms/reconciler.py:30-82 | a converged camera's pipeline is running at a revision no older than desired, under the epoch held, after any failures, losses, disables and reassignments |
| `WorkerLaws.OnePassConverges` | М10_ServerVMS/vmsserver/vms/reconciler.py:30-52 | with everything succeeding and no backoff pending, one pass makes what runs exactly the enabled rows, none behind |
| `WorkerLaws.NextPassDoesNothing` | М10_ServerVMS/vmsserver/vms/reconciler.py:30-52 | and the next pass does nothing |
| `Archive.ArchiveResource.Promote` | М10_ServerVMS/vmsserver/vms/archive.py:161-174 | every state the disk passes through, the line appended last, and the refusals |
| `Archive.ArchiveResource.Move` | М10_ServerVMS/vmsserver/vms/archive.py:197-204 | one rename, or copy, replace, remove, with every state in between |
| `Archive.ArchiveResource.Repair` | М10_ServerVMS/vmsserver/vms/archive.py:217-248 | every camera's manifest is rewritten in turn, and the counts are summed |
| `Archive.ArchiveResource.RepairCamera` | М10_ServerVMS/vmsserver/vms/archive.py:222-247 | the three loops over one manifest, and the two counts |
| `Archive.RepairedOverEach` | М10_ServerVMS/vmsserver/vms/archive.py:217-248 | each manifest is repaired from its own lines, whatever the order of the cameras |
| `Archive.ArchiveResource.CloseBuckets` | М10_ServerVMS/vmsserver/vms/archive.py:176-189 | the lines appended are those of buckets over, quiet for the grace, and not yet listed |
| `Archive.ArchiveResource.Retain` | М10_ServerVMS/vmsserver/vms/archive.py:250-268 | state by state: exactly the expired media files go, one by one, and then exactly their lines |
| `ArchiveLaws.RetainCutAnywhere` | М10_ServerVMS/vmsserver/vms/archive.py:250-268 | wherever that is cut, only expired files have gone and every file still there has its line |
| `ArchiveLaws.RepairIsExact` | М10_ServerVMS/vmsserver/vms/archive.py:217-248 | a repaired manifest holds one line per archived segment (the last that named it, or the line `promote` would write) and one per closed bucket, nothing else, in order |
| `ArchiveLines.PromotionSays` | М10_ServerVMS/vmsserver/vms/archive.py:161-174 | the line a promotion appends says the camera, epoch and start of the path the writer gave, that path, the size, and the end given or else the modification time |
| `ArchiveLines.PromotionMoves` | М10_ServerVMS/vmsserver/vms/archive.py:168-171 | an uncut promotion takes the file out of the spool into the archive and leaves no other file; a copy passes through every torn content under the temporary name with the file still in the spool |
| `ArchiveLines.RepairSaysOfSegment` | М10_ServerVMS/vmsserver/vms/archive.py:226-236 | and so does the one line a repair of that camera's manifest, and of no other, adds for a segment file that no line named |
| `ArchiveLines.RepairSaysOfBucket` | М10_ServerVMS/vmsserver/vms/archive.py:241-247 | a bucket has a line in a camera's repaired manifest iff it is that camera's and its span is over; it says the path's unit, epoch and start, where the span ends, and the events counted |
| `ArchiveLines.ClosingSays` | М10_ServerVMS/vmsserver/vms/archive.py:176-189 | closing adds the line of a camera's own bucket iff no bucket line names it, its span is over and it has been quiet for the grace; the line says what a repair's would |
| `ArchiveLines.RepairIsInOrder` | М10_ServerVMS/vmsserver/vms/archive.py:123-128 | lines go by start, and by epoch where the start is the same |
| `ArchiveLines.RepairCounts` | М10_ServerVMS/vmsserver/vms/archive.py:232-246 | added and dropped are the numbers of paths, of segments and of buckets, that are named after and not before, and before and not after |
| `ArchiveLines.RepairReports` | М10_ServerVMS/vmsserver/vms/archive.py:217-248 | over all cameras the report is of the paths the manifests name after the repair and not before, and the other way round |
| `ArchiveLaws.RepairTwiceIsOnce` | М10_ServerVMS/vmsserver/vms/archive.py:217-248 | a second repair of a manifest at the same time changes nothing and counts nothing |
| `ArchiveLaws.SecondRepairReportsNothing` | М10_ServerVMS/vmsserver/vms/archive.py:217-248 | over all cameras, the second repair reports nothing added and nothing dropped |
| `ArchiveLaws.CloseAfterRepairAddsNothing` | М10_ServerVMS/vmsserver/vms/archive.py:176-189 | closing buckets after a repair at the same time adds no line |
| `ArchiveLaws.NewlyClosedAre` | М10_ServerVMS/vmsserver/vms/archive.py:181-188 | a bucket gets its line iff none names it, its span is over and it has been quiet for the grace |
| `ArchiveLaws.RetainedAre` | М10_ServerVMS/vmsserver/vms/archive.py:250-268 | every bucket line and every unexpired media line stays, nothing else; with one line a path each media line left has its file |
| `ArchiveCrash.EveryStepGood` | М10_ServerVMS/vmsserver/vms/archive.py:161-204 | whatever step a promotion is cut at, nothing is lost and no line is false |
| `ArchiveCrash.PromotedIsNamed` | М10_ServerVMS/vmsserver/vms/archive.py:161-174 | after any run, an uncut promotion leaves the segment whole in the archive only, its line last; in the canonical directory that is the line a repair keeps |
| `ArchiveCrash.NoSegmentIsLost` | М10_ServerVMS/vmsserver/vms/archive.py:161-204 | over every run of closings, promotions cut anywhere, buckets written and repairs interleaved with all of these, a closed segment is whole in the spool or in the archive |
| `ArchiveRepair.LoggedStays` | М10_ServerVMS/vmsserver/vmsplatform/events.py:81-86 | over every such run, an event bucket written is in the archive as it is written until it is written again |
| `ArchiveCrash.RepairSaysWhatTheFilesSay` | М10_ServerVMS/vmsserver/vms/archive.py:217-248 | after any such run, a repair that nothing interrupts leaves for every camera exactly what the files alone say, each line once |
| `ArchiveRepair.ReplaceSaysWhatItSaw` | М10_ServerVMS/vmsserver/vms/archive.py:217-248 | with anything at all between its walk and its replacing of the manifest, a repair leaves exactly what the files said at its walk, whatever lines it had read |
| `ArchiveRepair.NamedExactlyWhenSeen` | М10_ServerVMS/vmsserver/vms/archive.py:217-248 | of the segments then in the archive, exactly those have their line that were there at the walk |
| `ArchiveRepair.PromotedMeanwhileIsUnnamed` | М10_ServerVMS/vmsserver/vms/archive.py:161-174 | a promotion that ends in between loses the line it wrote |
| `ArchiveCrash.NamedExactlyWhenCanonical` | М10_ServerVMS/vmsserver/vms/archive.py:57-64 | an archived segment is then named iff its camera directory is canonical |
| `ArchiveCrash.OddDirectoryLosesItsLine` | М10_ServerVMS/vmsserver/vms/archive.py:222-241 | a segment promoted in directory "007" has its line until a repair drops it |
| `Timeline.TimelineOf` | М10_ServerVMS/vmsserver/vms/archive.py:130-147 | the two loops and the sort, as one function of the lines |
| `Timeline.CountOne` | М10_ServerVMS/vmsserver/vms/archive.py:141-146 | a bucket goes to the first span that covers it, or stands alone |
| `Timeline.AnswerIs` | М10_ServerVMS/vmsserver/vms/archive.py:130-147 | the recorded spans are the media in the window, each once, with the events of the buckets each is first to cover; the rest are the uncovered buckets; all in (start, epoch) order |
| `TimelineLaws.TimelineIs` | М10_ServerVMS/vmsserver/vms/archive.py:130-147 | in terms of the lines: one span per recording that overlaps the window, with the events of the buckets it is the first to overlap, and one per bucket none does; bounds, epochs and fences; in order |
| `Timeline.AloneExactlyWhen` | М10_ServerVMS/vmsserver/vms/archive.py:139-146 | a bucket stands alone iff no media of its epoch in the answer overlaps it |
| `Timeline.EventsAreConserved` | М10_ServerVMS/vmsserver/vms/archive.py:130-147 | the events in the answer sum to those of the buckets in the window |
| `Timeline.FencedExactlyWhenOld` | М10_ServerVMS/vmsserver/vms/archive.py:133-147 | a span is fenced iff its epoch is older than the current |
| `EventLogs.BucketHoldsItsTime` | М10_ServerVMS/vmsserver/vmsplatform/events.py:27-28 | an event's bucket is the one span on the grid that holds its time |
| `EventLogs.BucketCountsItsEvents` | М10_ServerVMS/vmsserver/vmsplatform/events.py:81-108 | the count read back from a bucket is the number of events written to it |
| `EventIndexes.EventIndex.Tail` | М10_ServerVMS/vmsserver/vmsplatform/eventindex.py:73-103 | the pass over all servers, with what it reports; the rows added are counted |
| `EventIndexes.EventIndex.AddServer` | М10_ServerVMS/vmsserver/vmsplatform/eventindex.py:83-100 | one live server's units and buckets up to the first missing answer |
| `EventIndexes.EventIndex.AddFromMirror` | М10_ServerVMS/vmsserver/vmsplatform/eventindex.py:105-129 | a silent server's buckets from each holder in turn, filed under the real server |
| `EventIndexes.EventIndex.Rebuild` | М10_ServerVMS/vmsserver/vmsplatform/eventindex.py:67-71 | the same from nothing |
| `EventIndexes.EventIndex.Forget` | М10_ServerVMS/vmsserver/vmsplatform/eventindex.py:149-155 | exactly those buckets' rows and keys go |
| `EventIndexLaws.RowsAreTheUnionOfTheSeen` | М10_ServerVMS/vmsserver/vmsplatform/eventindex.py:67-129 | after any passes, servers silent, failing midway or answered for by mirrors: exactly the seen buckets' rows, each once, under their own server |
| `EventIndexLaws.ReportIs` | М10_ServerVMS/vmsserver/vmsplatform/eventindex.py:75-103 | a silent server is reported from mirror iff a live server says it holds copies, unreachable iff none does; a live one is never from mirror |
| `EventIndexLaws.HoldersAre` | М10_ServerVMS/vmsserver/vmsplatform/eventindex.py:110-112 | the holders asked are the live servers whose heartbeat lists the silent one |
| `EventIndexLaws.TailedKeeps` | М10_ServerVMS/vmsserver/vmsplatform/eventindex.py:86-89 | a bucket once seen is never read again |
| `EventIndexReach.SilentServerIs` | М10_ServerVMS/vmsserver/vmsplatform/eventindex.py:105-129 | of a silent server, a bucket is known after a pass iff it was before, or the list of some server that mirrors it, asked in its turn, reached it: nothing before it there, unknown by then, went without an answer, nor did it |
| `EventIndexReach.LiveServerIs` | М10_ServerVMS/vmsserver/vmsplatform/eventindex.py:83-100 | of a live one, iff it was, or its own lists reached it, unit by unit up to the first that went without an answer; unreachable iff one did |
| `EventIndexReach.AnsweredListsAreAdded` | М10_ServerVMS/vmsserver/vmsplatform/eventindex.py:113-126 | with every copy asked for answered, exactly the buckets listed by the servers that mirror it are added |
| `EventIndexReach.AddedRowsSay` | М10_ServerVMS/vmsserver/vmsplatform/eventindex.py:88-97 | the rows added are the events read, column by column, under the server that owns the bucket |
| `EventIndexOpen.CurrentExactlyWhenQuiet` | М10_ServerVMS/vmsserver/vmsplatform/eventindex.py:86-98 | over every run of appends, time and passes, the index is current iff no bucket seen was appended to after the pass that read it |
| `EventIndexOpen.ClosedListsStayCurrent` | М10_ServerVMS/vmsserver/vmsplatform/resource.py:140-145 | it is always current if every pass is shown only buckets whose span is over |
| `EventIndexOpen.OpenBucketGoesStale` | М10_ServerVMS/vmsserver/vmsplatform/resource.py:238-241 | a bucket tailed while open, appended to and tailed again: the index lacks the second event |
| `EventIndexLaws.TailEqualsRebuildExactlyWhen` | М10_ServerVMS/vmsserver/vmsplatform/eventindex.py:67-103 | a clean pass leaves what a rebuild gives iff every bucket seen before is still listed and reads as it did |
| `EventIndexLaws.CleanTailEqualsRebuildExactlyWhen` | М10_ServerVMS/vmsserver/vmsplatform/eventindex.py:67-103 | with immutable buckets: iff every bucket seen before is still listed by its live server |
| `EventIndexLaws.UnlistedBucketStays` | М10_ServerVMS/vmsserver/vmsplatform/eventindex.py:67-103 | a clean pass that differs from a rebuild: a bucket seen and no longer listed |
| `Peers.EveryServerServesExactly` | М10_ServerVMS/vmsserver/vmsplatform/resource.py:61-67 | on one live list of n servers, with 1 <= k <= n - 1 copies, every server is the peer of exactly k others |
| `Peers.PeersAreOthers` | М10_ServerVMS/vmsserver/vmsplatform/resource.py:61-67 | a server is never its own peer and has no peer twice, for any number of copies |
| `Mirrors.Fleet.Mirror` | М10_ServerVMS/vmsserver/vmsplatform/resource.py:177-195 | the loops over peers and the buckets listed anew for each, up to the first put that fails |
| `MirrorSends.PassIs` | М10_ServerVMS/vmsserver/vmsplatform/resource.py:185-194 | a pass is complete iff every peer is there and every put that was needed goes through; each peer up to the first that fails gains exactly what arrived, those behind it nothing |
| `MirrorSends.PassCounts` | М10_ServerVMS/vmsserver/vmsplatform/resource.py:184-195 | the count, complete or not, is of the copies there are more |
| `MirrorSends.ClosedIs` | М10_ServerVMS/vmsserver/vmsplatform/resource.py:140-145 | a bucket may be copied iff its span is over and its subsystem does not begin with a dot |
| `Mirrors.Fleet.Restore` | М10_ServerVMS/vmsserver/vmsplatform/resource.py:197-213 | what each holder keeps and is not here yet comes home and is counted, and nothing else changes |
| `MirrorLaws.EveryRunKeepsCopiesTrue` | М10_ServerVMS/vmsserver/vmsplatform/resource.py:165-213 | over every run, disks lost with all they held, every copy is of a closed bucket and has the bytes of its original and of every other copy |
| `MirrorLaws.CompletePassHoldsEverything` | М10_ServerVMS/vmsserver/vmsplatform/resource.py:177-195 | after a complete pass each chosen peer holds every bucket closed when it began, byte for byte, and a second pass with nothing new to list copies nothing |
| `MirrorLaws.RestoreBringsBackExactlyWhen` | М10_ServerVMS/vmsserver/vmsplatform/resource.py:165-213 | after any run, a complete pass, the loss of the disk and a restore: every closed bucket is back; nothing besides iff, in the whole history, no listed holder has kept a copy of a bucket that retention or a wipe took from the owner and that has not come home since |
| `MirrorLaws.OrphanExactlyWhenOutlived` | М10_ServerVMS/vmsserver/vmsplatform/resource.py:165-213 | a holder has a copy without an original iff such a step took the bucket while it had one, and since then neither its disk was lost nor the bucket restored |
| `MirrorLaws.RetainedBucketComesBack` | М10_ServerVMS/vmsserver/vmsplatform/resource.py:165-213 | written, closed, mirrored, deleted by retention, wiped, restored: the deleted bucket is back |
| `MirrorLaws.MirrorThenRestore` | М10_ServerVMS/vmsserver/vmsplatform/resource.py:177-213 | with neither retention nor a wipe on the owner so far: exactly its closed buckets |
| `Retention.Node.Enforce` | М9_EdgeVMS/nodevms/apphost/retention.py:111-159 | the whole pass, state by state: what the windows leave, then the policy; at no point has a row been without its file; a file without a row is never unlinked, and reported iff older than the grace |
| `Retention.Node.SweepOrphans` | М9_EdgeVMS/nodevms/apphost/retention.py:149-156 | reports exactly the files without a row older than the grace, and unlinks nothing |
| `Retention.Node.Remove` | М9_EdgeVMS/nodevms/apphost/retention.py:128-143 | state by state: the rows first, then exactly their files, one by one |
| `RetentionLaws.RowsGoFirst` | М9_EdgeVMS/nodevms/apphost/retention.py:1-10 | over everything a node has done, a file that had a row and is gone was, in between, a file without one |
| `Retention.Node.DropPartitions` | М9_EdgeVMS/nodevms/apphost/retention.py:125-133 | exactly the rows of partitions wholly past the longest window go, partition by partition |
| `Retention.Node.ExpireWindows` | М9_EdgeVMS/nodevms/apphost/retention.py:139-143 | exactly the rows past their own camera's shorter window go, camera by camera |
| `Retention.Node.GiveUntil` | М9_EdgeVMS/nodevms/apphost/retention.py:177-193 | the batched loop ends and gives up exactly the shortest prefix of the queue that meets the target, as if one at a time; all of it where none does |
| `Retention.Node.ApplyPolicy` | М9_EdgeVMS/nodevms/apphost/retention.py:165-197 | each policy's effect on index, disk, counts and permission to record |
| `Retention.HowMany` | М9_EdgeVMS/nodevms/apphost/retention.py:177-193 | the least number of segments that brings usage to the target |
| `Retention.QueueAfter` | М9_EdgeVMS/nodevms/apphost/store.py:171-180 | asking again after n deletions gives the rest of the queue: batches take it in order |
| `RetentionLaws.QueueIs` | М9_EdgeVMS/nodevms/apphost/store.py:171-180 | the queue is the rows of known cameras, each once, by start or by priority and start |
| `RetentionLaws.GivenIs` | М9_EdgeVMS/nodevms/apphost/retention.py:186-193 | giving up a stretch takes those rows and files only, and counts them |
| `RetentionLaws.DegradedIs` | М9_EdgeVMS/nodevms/apphost/retention.py:186-193 | each camera that gave anything up is noted with the start of the last it gave |
| `RetentionLaws.WhatAgeLeaves` | М9_EdgeVMS/nodevms/apphost/retention.py:125-143 | before the policy, a known camera's row stays iff it is inside its own window, or that window is the longest and no wholly past partition holds the row; a file goes exactly with its row |
| `RetentionLaws.EmptiedExactlyWhen` | М9_EdgeVMS/nodevms/apphost/retention.py:181-184 | when no prefix suffices all candidates go; the index is then empty iff every row's camera is known |
| `RetentionLaws.GoneCameraKeepsItsRow` | М9_EdgeVMS/nodevms/apphost/retention.py:181-184 | a full disk, a deleted camera: its row and its file stay |

## Left out

- GStreamer elements, HTTP consoles and handlers, metrics, gateways, signing,
  enrolment and the Go ports: plumbing, or the same loops again.
- `Variables.FakeVariables.PutItems`: a writer without access is refused in the
  source, and values are turned into strings; both are left to the caller.
- `Variables.FakeVariables.Remove`: the same refusal.
- Access control on the store, path checks against directory traversal, and the
  conversion of rows to strings; an assignment is a set of units, so a unit name
  with a comma in it (which the row's join and split would break) is not modelled.
- `FileVariables` is the same map with the same index rule; its lock file, its
  temporary files and the global index file are not modelled.
- The store has one log of writes. In `PlacementRace` the placement rows and the
  assignment rows each have their own index, which the compare-and-set does not
  notice.
- In `PlacementRace` the labels and the capacities do not change during a run.
- `move`, `delete_camera` and `redistribute` racing with `place`: they can list a
  camera twice; they are modelled for one controller at a time.
- Liveness of the retry loops: they are bounded and may raise. What is proved is
  what holds when they return, and that giving up wrote nothing.
- Ties that depend on dictionary or directory order are resolved in list order;
  where the order is not observable the loops take any order.
- `Archive.ArchiveResource.Repair`: a torn last line of a manifest is not modelled;
  an append is one step.
- `ArchiveRepair.ReplaceSaysWhatItSaw`: a repair walks for segments and for buckets in one step.
- `Archive.ArchiveResource.Promote`: directories are keys of the manifest map, and
  a camera's walk sees the files of its canonical directory.
- `ArchivePolicy`, `closed_in_spool` and the space counters: compositions or sums
  of what is modelled.
- `EventIndexes.EventIndex.Tail`: SQL tables are a set of keys and a sequence of rows; the state string
  and `query` are not modelled.
- `EventIndexOpen.CurrentExactlyWhenQuiet`: a pass is one step; files deleted by retention are not
  among the steps.
- `WorkerFleet.WorkersNeverShareAnEpoch`: the epochs a pass is answered are taken to be issued to that
  worker in the run of the protocol; a call for an epoch that was not made has no answer.
- `Mirrors.Fleet.Mirror`: heartbeats are a live list and, for a restore, a list of holders; that the
  heartbeat's list of mirrors is up to date is the caller's to say.
- `Retention.Node.Enforce`: month arithmetic, creation of partitions ahead and the `events` table.
- `Retention.Node.GiveUntil`: the target is a real; rounding of the usage fraction is not modelled.
- `LeaseSim.Simulate`: the accumulated step is exact; rounding of `t += step` is not modelled.
- Backoff delays are computed as the code does, with the random jitter a
  parameter; nothing is claimed of their distribution.

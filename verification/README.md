# Verified model of the thinkshare daemon

A Dafny 4.11 model of the stateful protocols inside the cloud-gaming VM orchestrator, with proofs
of what they guarantee. `dafny verify dfyconfig.toml` checks everything.

| file | what it models |
|---|---|
| Seqs.dfy | sequence vocabulary: concatenation, filtering, removal |
| FileClient.dfy | the upload's client: cutting, numbering, checksums, pacing |
| FileTransfer.dfy | the upload's server: out-of-order reassembly, terminators and commit |
| GpuQueue.dfy | the ticket queue for GPUs under every interleaving of its waiters |
| GpuClaims.dfy | the GPUs handed out by interleaved deployments, above the ticket queue |
| Overlay.dfy | overlay chains of disk images, as linked objects and as stacks |
| Directory.dfy | the recursive listing of, and search for, volumes |
| Host.dfy | serial runs of deployments, shutdowns and crashes on one host |
| VirtHost.dfy | the daemon's loops over GPUs, domains, models and linked volumes, against Host.dfy |
| Sessions.dfy | routing, signaling and closing over a tree of daemons |
| Registry.dfy | one daemon's session registry over serial runs, and the resources its sessions hold |
| Handlers.dfy | registrations and closes of one registry interleaved without a lock |
| NodeCache.dfy | a node's cached information guarded by its last query |
| Rendezvous.dfy | the waiting lines that pair signaling tenants |
| Relay.dfy | the relay between two paired tenants |
| Timers.dfy | deployment and keepalive timers, queue position under interleaved requests |
| Reconcile.dfy | cluster reconciliation |
| ChildProcess.dfy | process supervision and log splitting |

## How to read it

A concurrent protocol is a state machine: a `State`, an `Event` per atomic step (a critical section,
a channel operation, a clock reading), and `Step`, which leaves the state alone when the step is not
enabled, in particular when a channel operation would block. `Run` folds `Step` over an arbitrary
sequence of events, so a lemma about `Run` speaks of every interleaving. Classes and loops model the
code's own objects; each method's contract ties the new state to `Step` or to a function of the old
state. Everything outside the daemon (HTTP, libvirt, qemu-img, lspci, the file system, clocks,
uuids, MD5) is a parameter that may succeed or fail at will.

Besides what never happens, the lemmas say what does: messages posted arrive, a waiter gets its turn, a
watcher that finds silence cancels, a child that is gone is started again, a machine that comes up
holds its GPU, a close gives back exactly what the session owned.

Where the code does less than its evident purpose, the model follows the code; a lemma shows an
input or run that fails, and another says exactly when the purpose is met:

- The server's watchdog tests for recent activity rather than for silence, and the receiver queues
  its own terminator behind the last chunk, so a terminator may arrive at any moment. Safety is
  proved with terminators anywhere (`FileTransfer.UploadIsSafe`). Once one is queued, every chunk in
  front of it gets one look: the upload commits if and only if the remaining chunks stand there
  undamaged and in order (`FileTransfer.CommitsIffInOrder`); two swapped chunks end it short
  (`FileTransfer.SwappedChunksEndShort`).
- The digest covers a chunk's content and not its id, so a damaged id can store the wrong content
  (`FileTransfer.DamagedIdIsStored`). Every run keeps the temporary file right if and only if the
  network can deliver no chunk that fits its digest, has an id the server may reach, and is not the
  part of that id (`FileTransfer.IntactIffHarmless`).
- The destination is removed before the rename. A commit leaves it missing if and only if the rename
  fails and the old file was absent or has been removed (`FileTransfer.DestinationMissingIff`).
- A pending request can be overtaken by a handler that read an earlier second and took the lock
  later (`Timers.OvertakenWhileInFlight`). It never is, in any run, if and only if no such handler is
  in flight (`Timers.NeverOvertakenIff`).
- Nothing locks the session registry: registrations and closes write or delete the map entry, load
  the list, and store it. Over whole interleavings records and list stay in step if and only if every
  store is clean (`Handlers.InStepThroughoutIffClean`). Of two handlers that hold the same snapshot
  the second to store undoes the first, unless that one closed a session that was not listed
  (`Handlers.OverlapSurvivesIff`); a close survives the registrations around it if and only if none
  stored between its load and its store (`Handlers.CloseSurvivesIff`). Two overlapping registrations
  lose one session (`Handlers.OverlappingRegistrations`), and a close inside a registration is undone
  (`Handlers.CloseInsideRegistration`).
- A query of a cluster node that has passed its test still writes after Deinit
  (`NodeCache.DeinitDoesNotFreeze`). The answer is frozen if and only if no query waits for its answer
  or is about to clear an error (`NodeCache.FrozenIff`). With queries overlapping, the accessors
  answer with the last reply if and only if it is not a failure recorded between another query's two
  writes (`NodeCache.CacheIsLastReplyIff`, `NodeCache.OverlappingQueries`).
- A ping may store its clock reading after a later one has been stored
  (`Timers.LateStoreCancels`). The watcher spares a request at every check within the limit of the
  newest reading stored if and only if no older second has been stored over it
  (`Timers.SparedIffInOrder`).
- Volume listings parse names loosely: a backup file or a directory named after a volume offers an
  image that need not exist (`Directory.StrayIsOffered`). The listing names exactly the images and
  those strays (`Directory.ListingNamesFiles`).
- A failed deployment restores the disk files if and only if "the OS disk is the base image" and
  "it has no backing file" agree (`Host.FailedDeployRestoresIff`).
- Popping an overlay undoes its push if and only if the overlay's file did not exist before
  (`Overlay.PopUndoesPush`).
- The GPU ticket is passed on before the machine exists, so two deployments can be given one GPU
  (`GpuClaims.OverlappingClaims`). The next claim is sure to be exclusive if and only if every
  address handed out is already held by a running machine (`GpuClaims.LookIsSafeIff`); on one
  inventory a look collides if and only if the first free GPU is claimed by a deployment that has not
  launched (`GpuClaims.LookCollidesIff`).
- A targeted command stops at the first node whose cache reports an error, although the view and the
  other commands pass such nodes over (`Sessions.OfflineNodeBlocksRouting`). It ends at the view's
  first match if and only if no offline node stands before that one on the way
  (`Sessions.RoutesByViewIff`).
- Closing removes an id from the whole view if and only if at most one daemon held it
  (`Sessions.CloseIsExact`).
- A second reconciliation pass retries exactly the failed creations if and only if no address both
  failed and came up; it does so whichever creations fail if and only if the unserved manifest
  entries are distinct (`Reconcile.SecondPassRetriesFailures`, `Reconcile.AlwaysRetriesIffDistinct`,
  `Reconcile.RepeatedEntryIsNotRetried`).
- A process start can follow the closing if and only if the flag is set between the supervisor's
  test and its start (`ChildProcess.LateStartIffInWindow`). A closing that has passed its lookup can
  bring the daemon down if and only if, as it sets the flag, the command has no process or the
  supervisor is past its test (`ChildProcess.CloseCanCrashIff`).

## Model

| member | source | states |
|---|---|---|
| FileClient.ReadLoop | utils/filerpc/client/client.go:68-86 | buffers are non-empty pieces of at most 512 KiB that concatenate to a prefix of the file, the k-th read starts at least k units after the start, and bytes read by any instant stay within 50 MiB per second of 10^9 ns |
| FileClient.PacingBound | utils/filerpc/client/client.go:19-21 | any read schedule spaced by the unit time stays within one chunk per elapsed unit at every instant |
| FileClient.SendLoop | utils/filerpc/client/client.go:88-105 | sent chunks carry ids 1, 2, 3, ... with the right content and digest, up to the first failing send |
| FileClient.Upload | utils/filerpc/client/client.go:48-111 | both client loops together send a numbered prefix of the file, the whole of it when nothing fails |
| FileTransfer.StepKeepsInv | utils/filerpc/server/server.go:69-111 | every step of receiver, watchdog, writing loop and commit keeps the temporary file equal to parts 1..last_id, a bad checksum included; after a failed write it stops inside the last part |
| FileTransfer.UploadIsSafe | utils/filerpc/server/server.go:48-135 | under loss, duplication, reordering, damage that leaves the network harmless, and early terminators the temporary file is parts 1..last_id until a write fails, and the destination is the old one, the whole source file, or missing after a failed rename |
| FileTransfer.DestinationMissingIff | utils/filerpc/server/server.go:130-131 | the destination ends missing exactly when the rename fails and the old file was absent or has been removed |
| FileTransfer.IntactIffHarmless | utils/filerpc/server/server.go:91-111 | every run without a failing write keeps the temporary file equal to parts 1..last_id if and only if the network can deliver no harmful chunk: one that fits its digest, has a reachable id, and is not the part of that id |
| FileTransfer.DamagedIdIsStored | utils/filerpc/server/server.go:97-107 | a chunk with a damaged id and intact content is accepted, and wrong content of the right size is stored |
| FileTransfer.AheadIsAllIffInOrder | utils/filerpc/server/server.go:91-104 | one look at each chunk writes them all exactly when they come undamaged and in order |
| FileTransfer.TerminatorDecides | utils/filerpc/server/server.go:69-111 | over every later run, a queued terminator fixes where the loop ends: one look at each chunk in front of it, up to the first damaged one whose turn it is |
| FileTransfer.CommitsIffReached | utils/filerpc/server/server.go:91-132 | with a terminator queued, the whole file is committed exactly when those looks reach the last part and meet no damage; otherwise the upload ends short or with a bad checksum |
| FileTransfer.CommitsIffInOrder | utils/filerpc/server/server.go:91-132 | with as many chunks in front of the terminator as parts are missing, exactly when they are undamaged and queued in order |
| FileTransfer.SwappedChunksEndShort | utils/filerpc/server/server.go:77-100 | two swapped chunks with the end of the stream behind them end the upload short |
| FileTransfer.WritingLoop | utils/filerpc/server/server.go:91-111 | the loop on a channel with a terminator, a run of the step machine, stops there after one look at each chunk in front of it, or at the first damaged chunk whose turn it is |
| FileTransfer.DequeuesBound | utils/filerpc/server/server.go:91-100 | reassembling n chunks in any order takes between n and n(n+1)/2 dequeues, the next id needing its distance from the head plus one |
| FileTransfer.ReassemblyBoundIsTight | utils/filerpc/server/server.go:91-100 | descending order needs exactly n(n+1)/2 |
| FileTransfer.Reassemble | utils/filerpc/server/server.go:91-111 | on a channel without a terminator the loop, a run of the step machine, writes every remaining chunk in id order within the bound |
| FileTransfer.Conclude | utils/filerpc/server/server.go:113-135 | size check and commit: the error, the temporary file and the destination in every outcome |
| FileTransfer.ReassembledCommits | utils/filerpc/server/server.go:117-132 | once all parts are stored, terminator and size check replace the destination by the whole file |
| GpuQueue.StepKeepsInv | daemon_linux.go:579-632 | each critical section keeps tickets distinct, live tickets queued, the claimant at the head and the order of entry |
| GpuQueue.TicketQueueIsSafe | daemon_linux.go:579-632 | in every interleaving local_queue[0] exists for whoever looks, at most the head claims, and the non-cancelled arrivals are those that entered followed by those that wait, in order |
| GpuQueue.NobodyIsStuck | daemon_linux.go:579-632 | after every run, whoever still waits gets its turn when those at the head make their moves, cancelled ones included |
| GpuQueue.RemoveLeavesOthers | daemon_linux.go:587-605 | the deferred removal takes the ticket out whatever the outcome, and nobody else's |
| GpuQueue.CancelKeepsInv | daemon_linux.go:615-618 | a cancelled waiter leaves the order of all others intact |
| GpuQueue.LocalQueue.Join | daemon_linux.go:580-583 | the ticket is appended |
| GpuQueue.LocalQueue.UrTurn | daemon_linux.go:607-613 | indexing the head is safe, and a turn is granted only when nobody else is claiming |
| GpuQueue.LocalQueue.WakeUp | daemon_linux.go:615-618 | a waiter gives up exactly when its cancel channel is non-empty |
| GpuQueue.LocalQueue.TakeGPU | daemon_linux.go:621-631 | the claim loop ends at the first look that fails or finds a GPU, and only there |
| GpuQueue.LocalQueue.Leave | daemon_linux.go:587-605 | the deferred removal takes out this ticket and no other |
| GpuClaims.StepKeepsInv | daemon_linux.go:98-156 | claims, launches, failures and other machines keep the queue's invariant, and a launched claim is backed by its running machine |
| GpuClaims.LookIsSafeIff | daemon_linux.go:557-577 | whatever the GPU query lists, the next claim is exclusive exactly when every address handed out is held by a running machine |
| GpuClaims.LookCollidesIff | daemon_linux.go:557-577 | on one inventory of GPUs the next look collides with an earlier claim exactly when the first free GPU is claimed by a deployment that has not launched |
| GpuClaims.LookClaimsFirstFree | daemon_linux.go:557-577 | whoever has the turn claims the first free GPU, or keeps looking |
| GpuClaims.LaunchBacks | daemon_linux.go:146-156 | a launched claim is backed by a running machine whose GPU no look finds |
| GpuClaims.StopEnds | daemon_linux.go:336-376 | a machine that stops ends its claim and no other |
| GpuClaims.ClaimsAreExclusive | daemon_linux.go:98-156 | over every interleaving in which no GPU is looked for while a claim waits for its machine, unfinished deployments share no address |
| GpuClaims.OverlappingClaims | daemon_linux.go:98-156 | passing the ticket on before the machine exists lets two deployments be given the same GPU |
| Overlay.PopUndoesPush | utils/libvirt/volume.go:32-87 | a push appends one path to AllFiles and a pop undoes it, disk included, if and only if the overlay's file was new |
| Overlay.BalancedIsIdentity | utils/libvirt/volume.go:32-87 | any balanced sequence of pushes and pops, failing pushes included, restores images and disk |
| Overlay.ReversedAt | utils/libvirt/volume.go:89-95 | AllFiles lists a chain back to front |
| Overlay.AllFiles | utils/libvirt/volume.go:89-95 | bottommost file first, over the linked objects |
| Overlay.BackingChain | utils/libvirt/daemon.go:26-45 | the libvirt description lists the images topmost first |
| Overlay.BackingChainIsReversedAllFiles | utils/libvirt/daemon.go:26-45 | it is the reverse of AllFiles, entry by entry |
| Overlay.Volume.New | utils/libvirt/volume.go:18-30 | the chain holds the absolute paths in the order given |
| Overlay.Volume.PushChain | utils/libvirt/volume.go:32-80 | in-place push: a fresh copy of the old head goes below; failures change nothing |
| Overlay.Volume.PopChain | utils/libvirt/volume.go:82-87 | in-place pop with removal of the file |
| Directory.FindAgrees | daemon_linux.go:635-691 | when the listing succeeds, an id is listed exactly when the search finds it, and what it finds is that id below the directory |
| Directory.ListingIffReadable | daemon_linux.go:635-639 | the listing fails exactly when some directory of the tree cannot be read |
| Directory.ListingIsWalk | daemon_linux.go:635-663 | it gives the ids in the order of the walk, subdirectories before the entry itself |
| Directory.FindIff | daemon_linux.go:665-691 | the search succeeds exactly when a readable directory has an image or a stray of that id |
| Directory.FindIsFirst | daemon_linux.go:665-691 | it returns the first entry of the walk with that id |
| Directory.ListingNamesFiles | daemon_linux.go:635-663 | a successful listing names exactly the images below the directory and the strays, names that parse to a volume without being its image |
| Directory.FindIsFile | daemon_linux.go:665-691 | what the search returns for an id without strays is one of the images |
| Directory.StrayIsOffered | daemon_linux.go:635-691 | a lone backup file offers, and the search returns, an image that does not exist |
| Directory.ListVolumesInDir | daemon_linux.go:635-663 | the listing loop computes the preorder listing, failing as a whole on an unreadable directory |
| Directory.FindVolumesInDir | daemon_linux.go:665-691 | the search loop returns the first match in preorder |
| Host.FailedPrepareRestores | daemon_linux.go:519-554 | every failing path of prepareVolume leaves the file set as it was |
| Host.PreparedIff | daemon_linux.go:519-554 | preparation succeeds exactly when the application image is there and its overlay can be made, the OS disk can be read, and it has a backing file or can be given an overlay |
| Host.FailedDeployRestoresIff | daemon_linux.go:131-160 | what a later failure leaves on disk, with the exact condition for restoring it |
| Host.NewModelHasOwnDisks | daemon_linux.go:519-554 | a new machine's writable images differ from those of every live machine |
| Host.AvailableIffOnDisk | daemon_linux.go:466-484 | the volumes a query may offer are exactly the ids of images on disk and of strays that are not the OS top layer of a live machine |
| Host.FailedVolumeDeployRestoresIff | daemon_linux.go:107-160 | a failed deployment of a volume found on disk leaves the volume, and restores the files exactly when it has a backing file |
| Host.FailedDeployMachines | daemon_linux.go:156-238 | which failing deployments leave their machine behind, and that no other machine is touched |
| Host.UpHoldsItsGpu | utils/libvirt/libvirt.go:131-150 | a machine that comes up runs and holds every address of its GPU's group, the GPU is active and the volume in use |
| Host.HeldGpuIsNotFound | daemon_linux.go:557-577 | while it runs no look finds a GPU that shares an address |
| Host.UpHasItsDisks | daemon_linux.go:131-160 | its disks exist: a fresh overlay over the application image, and the OS image with its backing file or under a fresh overlay |
| Host.ExitFrees | utils/libvirt/daemon.go:185-255 | a machine that stops by itself holds nothing any more and all others hold what they held |
| Host.ShutdownFrees | daemon_linux.go:336-376 | a shutdown leaves no machine of that name, every other one as it was, and takes away exactly its disposable top layers |
| Host.StepKeepsInv | daemon_linux.go:91-376 | every deployment, shutdown, crash, foreign domain and allocation keeps both exclusivities |
| Host.SerialRunsAreExclusive | daemon_linux.go:91-376 | over every serial run no two live machines share a writable image and running machines hold disjoint PCI addresses |
| Host.SerialMachinesHoldTheirGpus | daemon_linux.go:91-376 | over every serial run machines hold exactly the addresses of their own launch request's GPU, and no two running ones were given GPUs that share one |
| VirtHost.ListGPUs | utils/libvirt/daemon.go:185-255 | a listed GPU is active exactly when a running domain holds an address of its group; bad headers are skipped |
| VirtHost.TakeGPU | daemon_linux.go:557-577 | the first listed GPU that is not active, if any |
| VirtHost.OfferVolumes | daemon_linux.go:472-484 | the offered volumes are the listed ones not in use, in order |
| VirtHost.FreeProducts | daemon_linux.go:486-494 | exactly the product names of free GPUs |
| VirtHost.WaitForGPU | daemon_linux.go:621-631 | the claim loop over the answers of the GPU query takes the first free GPU of the first answer that shows one |
| VirtHost.VirtDaemon.VolumeMap | daemon_linux.go:449-470 | every listed machine of ours with its OS volume; the values are the OS top layers of live machines |
| VirtHost.VirtDaemon.QueryLocal | daemon_linux.go:413-517 | fails without a change when one of the three queries fails; otherwise the offered volumes are the listed ids that are not the OS top layer of a live machine, the offered GPUs the free ones, and each session shows its machine's volume |
| VirtHost.SessionShowsItsVolume | daemon_linux.go:494-514 | a session whose address only its own machine answers shows the OS volume that machine writes to |
| VirtHost.PrepareVolume | daemon_linux.go:519-554 | prepares both chains on linked volumes as specified, restoring the disk on failure |
| VirtHost.VirtDaemon.CreateVM | utils/libvirt/libvirt.go:131-150 | the nested loops attach every address of every GPU's group, in order |
| VirtHost.RunningAt | daemon_linux.go:362-373 | the first running machine that answers with the address, none exactly when none does |
| VirtHost.ClaimOver | daemon_linux.go:621-631 | the first answer that is an error or shows a free GPU ends the loop, and nothing else |
| VirtHost.VirtDaemon.DeployVM | daemon_linux.go:91-238 | the new host state in every outcome of a deployment, the claim loop included; a machine that is up holds the granted GPU |
| VirtHost.VirtDaemon.DeployVMwithVolume | daemon_linux.go:304-334 | local when offered here, else the first answering node that offers the volume |
| VirtHost.VirtDaemon.ShutdownVM | daemon_linux.go:336-376 | removes the first running machine that answers with the address and exactly its disposable top layers; an error, and no change, when there is none |
| Sessions.RouteIsFirst | daemon.go:639-750 | routing picks the owner of the first reachable match |
| Sessions.TargetedCommandReachesOwner | daemon.go:639-750 | a targeted command ends at the daemon owning the first routable answering session in preorder, within tree height, clearing Target on the last hop only, and fails only when there is none |
| Sessions.FreshTreeRoutesByView | daemon.go:494-516 | with all nodes online that is the first routable match of the aggregated view |
| Sessions.RoutesByViewIff | daemon.go:639-750 | a targeted command ends at the view's first match exactly when no offline node stands before it on the way |
| Sessions.OfflineNodeBlocksRouting | daemon.go:697-702 | an offline node hides later nodes from targeted commands although the view lists them |
| Sessions.HandleSessionForward | daemon.go:639-750 | the nested search-and-forward loops compute that route |
| Sessions.SignalFindsFirst | daemon.go:385-412 | in every tree signaling ends at the first VM session of the view with that id, offline nodes or not |
| Sessions.HandleSignaling | daemon.go:385-412 | the nested loops compute that, and fail exactly when the view has no such session |
| Sessions.SignalingAgreesWithRouting | daemon.go:385-412 | signaling and command forwarding end at the same session |
| Sessions.CloseRemovesOneHolder | daemon.go:223-254 | closing takes the id from exactly one daemon and changes no other session anywhere |
| Sessions.CloseIsExact | daemon.go:530-582 | the refreshed view loses exactly that id if and only if at most one daemon held it |
| Sessions.CloseSessionUpdatesView | daemon.go:223-254 | with unique ids closing at the root removes that id from the view and nothing else |
| Handlers.StoreKeepsInStepIff | daemon.go:213-254 | a store keeps records and list in step exactly when its snapshot agrees with the list on every session nobody handles and its own session is settled |
| Handlers.InStepThroughoutIffClean | daemon.go:213-254 | over every interleaving of the three steps of registrations and of closes, records and list stay in step throughout exactly when every store is clean |
| Handlers.OverlapSurvivesIff | daemon.go:213-254 | of two handlers with the same snapshot, the second store keeps records and list in step exactly when the first one changed nothing |
| Handlers.SeparateWindowsKeepInStep | daemon.go:213-254 | runs in which no handler loads the list while another holds a snapshot, and no two work on one session, keep the registry's invariant |
| Handlers.OverlappingRegistrations | daemon.go:213-219 | two overlapping registrations and no close leave one session recorded and not listed |
| Handlers.CloseInsideRegistration | daemon.go:213-254 | a whole close between the load and the store of a registration leaves the closed session listed |
| Handlers.CloseSurvivesIff | daemon.go:213-254 | a close among any interleaving of registrations of other sessions survives exactly when none of them stores the list between its load and its store |
| Handlers.UndisturbedHandlersAreSerial | daemon.go:213-254 | with nothing in between, the three steps of a registration and of a close make the single steps of the serial runs |
| Registry.ResourcesAreConserved | daemon.go:213-280 | over every serial run, keys of `session` equal the duplicate-free ids of `Sessions`, and every acquired resource is held or has been released exactly once |
| Registry.ResourcesAreOwned | daemon.go:256-280 | what a close gives back is exactly what the record's fields say the session owns, kind by kind |
| Registry.ReleasedIsGivenBack | daemon.go:223-282 | over every serial run a resource has been released exactly when a session that owned it, by the registrations and closes alone, has been closed |
| Registry.CloseKeepsInv | daemon.go:231-254 | an undisturbed close keeps keys and list in step |
| Registry.Daemon.Register | daemon.go:213-219 | with no other handler in between: adds one record and one list entry |
| Registry.Daemon.CloseLocal | daemon.go:229-282 | with no other handler in between: removes the id, keeps the order of the others, releases exactly the display, machine, tokens, TURN user, memory channel and processes the session owned |
| NodeCache.CacheIsLastReplyIff | cluster/node.go:71-150 | over every interleaving of queries, once none stands between its two writes, the accessors answer with the last reply exactly when it is not a failure recorded while one did |
| NodeCache.SerialQueriesAreExact | cluster/node.go:121-150 | queries made one after another never run into that case |
| NodeCache.OverlappingQueries | cluster/node.go:121-150 | a run in which the last reply failed and the accessors give out an earlier answer |
| NodeCache.FrozenIff | cluster/node.go:71-150 | after Deinit the answer is frozen over every run exactly when no query waits for its answer or is about to clear an error |
| NodeCache.DeinitDoesNotFreeze | cluster/node.go:71-150 | a query that passed its test before Deinit changes the answer after it |
| NodeCache.Node.BeginQuery | cluster/node.go:121-124 | an inactive node refuses without touching the cache or the recorded error |
| NodeCache.Node.EndQuery | cluster/node.go:126 | the deferred assignment records a failure or clears the error |
| NodeCache.Node.Query | cluster/node.go:121-150 | with no other query in between, the accessors then answer with this reply |
| NodeCache.Node.Read | cluster/node.go:77-119 | cached information is given out only when the last query succeeded |
| Rendezvous.RendezvousIsZip | utils/signaling/signaling.go:46-99 | a token's pairs are the zip of arrival orders, the rest waits in order in one line of at most 8, no pair crosses tokens, nobody is paired twice |
| Rendezvous.RoomsCountArrivals | utils/signaling/signaling.go:46-99 | a token has lines exactly while it is open, and they account for exactly the tenants that came since it was added |
| Rendezvous.BlocksIff | utils/signaling/signaling.go:53-76 | a newcomer blocks with the mutex held exactly when eight more of its own role than of the other came before |
| Rendezvous.BlockedForEver | utils/signaling/signaling.go:46-78 | then nothing changes any more |
| Rendezvous.Signaling.OnTenant | utils/signaling/signaling.go:46-78 | invalid key, waiting, pairing with the longest waiting partner, or blocking with the mutex held |
| Rendezvous.Signaling.AddSignalingChannel | utils/signaling/signaling.go:83-93 | a token starts with two empty lines |
| Rendezvous.Signaling.RemoveSignalingChannel | utils/signaling/signaling.go:95-99 | the token and its lines disappear |
| Relay.PollKeeps | utils/signaling/protocol/websocket/websocket_server.go:149-160 | posting and draining keep both directions' accounts |
| Relay.RunKeepsInv | utils/signaling/pair.go:14-60 | every run of relay threads, closer and polls keeps the accounts and the mailbox bounds |
| Relay.RelayIsInOrder | utils/signaling/pair.go:14-60 | a tenant has received START and then an in-order, duplicate-free prefix of its partner's posts; while the relay runs the rest is in hand or in the mailbox |
| Relay.NothingIsLost | utils/signaling/pair.go:27-50 | over every run without a nil in the mailboxes no thread stops, nobody exits, and everything posted is delivered, in hand or in the mailbox |
| Relay.TurnMoves | utils/signaling/pair.go:29-50 | one turn of a thread moves the oldest message to the partner and is ready for the next |
| Relay.EverythingMoves | utils/signaling/pair.go:29-50 | while the partner's mailbox has room the thread brings over everything that is there |
| Relay.PollServesAll | utils/signaling/protocol/websocket/websocket_server.go:143-173 | an undisturbed poll posts its whole body in order, drains everything that waits in order, and ends |
| Relay.ExitedIsRefused | utils/signaling/protocol/websocket/websocket_server.go:143-147 | a tenant that has exited is refused its polls |
| Relay.StopsExactly | utils/signaling/pair.go:31-36 | a thread stops exactly at a nil or after an exit |
| Relay.ClosingEndsBoth | utils/signaling/pair.go:51-60 | once a thread has stopped, both tenants get the flag and a nil |
| Relay.HttpTenant.Send | utils/signaling/protocol/websocket/websocket_tenant.go:21-23 | appends to Outcoming |
| Relay.HttpTenant.Receive | utils/signaling/protocol/websocket/websocket_tenant.go:25-27 | takes the oldest message |
| Relay.HttpTenant.BeginPoll | utils/signaling/protocol/websocket/websocket_server.go:143-147 | a poll is refused once the tenant has exited |
| Relay.HttpTenant.Serve | utils/signaling/protocol/websocket/websocket_server.go:149-160 | posts the body in order, then drains until empty |
| Relay.Pair.Trigger | utils/signaling/pair.go:14-25 | both tenants get START first |
| Relay.Pair.RelayTurn | utils/signaling/pair.go:29-50 | the oldest message is at the partner and the thread receives again, unless somebody has exited or it is a nil: then the thread has stopped |
| Relay.Pair.Shut | utils/signaling/pair.go:51-60 | the closer exits each tenant that has not exited |
| Timers.CancelLatches | persistent/http/http.go:178-220 | cancel channels only grow: at most two tokens for a deployment, one for a keepalive |
| Timers.StillWatching | persistent/http/http.go:202-220 | a watcher goes on watching until it has sent its token or its request has returned |
| Timers.CheckCancelsExactly | persistent/http/http.go:202-220 | the watcher of a running request not yet cancelled by it cancels if and only if the silence reaches limit + 1 seconds less the fraction at which the last ping came |
| Timers.SilenceCancels | persistent/http/http.go:202-220 | over a whole run, a check after limit + 1 seconds of silence leaves exactly one token of the watcher |
| Timers.ReturnLeavesToken | persistent/http/http.go:194-210 | a returned request leaves its token and its watcher ends at the next check |
| Timers.KeptAliveIsNeverCancelled | persistent/http/http.go:202-220 | no watcher token while every check comes within the limit of the reading stored last |
| Timers.SparedIffInOrder | persistent/http/http.go:141-220 | a watcher spares a request at every check within the limit of the newest reading stored exactly when no older second has been stored over it |
| Timers.PingedIsNeverCancelled | persistent/http/http.go:141-220 | over whole runs no watcher token while checks come within the limit of the newest reading and find it in place |
| Timers.LateStoreCancels | persistent/http/http.go:154-169 | a late store of an older reading makes the watcher cancel a request pinged a second before |
| Timers.TimeoutsInSeconds | persistent/http/http.go:202-220 | no cancel up to 5 s (600 s) of silence, and over whole runs exactly one token of the watcher from 6 s (601 s) on while the request runs |
| Timers.UsedExpires | persistent/http/http.go:119-135 | over whole runs, after _used the next check in a later second leaves the watcher's token, and one in the same second adds none |
| Timers.PositionBounds | persistent/http/http.go:73-100 | in any sorted listing the index lies between the strictly earlier and the no-later requests |
| Timers.OvertakenIffLateInsert | persistent/http/http.go:178-201 | a step puts somebody ahead of a pending request exactly when it inserts a handler that read an earlier second and was still in flight |
| Timers.AheadNeverGrows | persistent/http/http.go:73-100 | over every run the requests ahead of a request, pending or in flight, only become fewer, and with them the bound on its position |
| Timers.NeverOvertakenIff | persistent/http/http.go:178-201 | after any run so far, no further run overtakes a request exactly when nobody with an earlier second is in flight |
| Timers.OvertakenWhileInFlight | persistent/http/http.go:178-201 | a run in which a later request is overtaken by an earlier one |
| Timers.HttpServer.Prepare | persistent/http/http.go:178-188 | four clock readings, one for each field of the two timers |
| Timers.HttpServer.Register | persistent/http/http.go:189-193 | the critical section that makes the request pending |
| Timers.HttpServer.Forget | persistent/http/http.go:197-201 | the deferred critical section that ends it; keepalives stay |
| Timers.HttpServer.Refresh | persistent/http/http.go:160-169 | a pending request's timestamp is set, an unknown one is refused; the position is asked for in a second critical section |
| Timers.HttpServer.Keep | persistent/http/http.go:119-153 | _use and _used on a known keepalive |
| Timers.HttpServer.CurrentPosition | persistent/http/http.go:73-100 | -1 for unknown ids, else a position within the bounds |
| Reconcile.SyncConverges | cluster/impl.go:84-140 | one pass never leaves the manifest and reaches it when every creation succeeds |
| Reconcile.EqualStateIsFixed | cluster/impl.go:84-140 | a state equal to the manifest keeps the very same objects |
| Reconcile.SecondPassRetriesFailures | cluster/impl.go:84-140 | for any manifest the next pass attempts exactly the failed creations if and only if no address both failed and came up |
| Reconcile.AlwaysRetriesIffDistinct | cluster/impl.go:84-140 | it does so whichever creations fail if and only if the manifest entries nobody serves are distinct |
| Reconcile.RepeatedEntryIsNotRetried | cluster/impl.go:89-100 | a repeated entry that fails once and comes up once is not retried |
| Reconcile.Pass | cluster/impl.go:84-140 | survivors are the same objects in order, then the successful creations in manifest order; removed members are deactivated |
| Reconcile.ClusterConfig.SyncNodes | cluster/impl.go:75-143 | the pass on nodes |
| Reconcile.ClusterConfig.SyncPeers | cluster/impl.go:145-208 | the pass on peers |
| ChildProcess.AtMostOneLateStart | childprocess/childproc.go:74-106 | in every interleaving at most one start follows the closing |
| ChildProcess.GoneIsRestarted | childprocess/childproc.go:74-87 | after every run, a child that is gone is started again within five moves of the supervisor, unless its closing has begun |
| ChildProcess.LivingIsLeftAlone | childprocess/childproc.go:74-87 | after every run, a living child is neither doubled nor left by its waiting supervisor |
| ChildProcess.ClosingEndsSupervisor | childprocess/childproc.go:74-106 | closing a living child kills it and ends the supervisor without another start |
| ChildProcess.LateStartIffInWindow | childprocess/childproc.go:74-106 | a start can follow exactly when the flag is set between test and start |
| ChildProcess.WindowIsReached | childprocess/childproc.go:74-87 | a run that enters that window |
| ChildProcess.CloseCanCrashIff | childprocess/childproc.go:84-106 | a closing past its lookup can dereference a missing process exactly when, at the flag, the command has none or the supervisor is past its test |
| ChildProcess.Supervised.Supervise | childprocess/childproc.go:74-87 | the supervisor's next move |
| ChildProcess.LoggedIsScan | childprocess/childproc.go:176-186 | the nested splits log exactly the maximal runs free of CR and LF |
| ChildProcess.LogIsBoundaryIndependent | childprocess/childproc.go:164-188 | however the stream is cut, pieces are non-empty, free of CR and LF, and concatenate to the stream without them |
| ChildProcess.CopyAndCapture | childprocess/childproc.go:164-188 | the capture loop logs just that |

## Left out

- HTTP, JSON, XML, YAML, SSH, libvirt, qemu-img, lspci and process execution are parameters that succeed or fail.
- Peers: their aggregation re-queries the network on every call and has no well-founded recursion; as a last routing fallback they are not part of the model.
- Sessions.Route: whether a VM answers is a fixed property of the session, standing for the up to five attempts of the code; repeated posts to a node therefore give the same answer.
- Sessions.Close: a node that is online answers its posts; a closing command that carries a Target is not modelled.
- Sessions.SignalRoute: a local VM session without an address makes the code dereference a nil pointer; the agreement lemma is for sessions with addresses.
- FileTransfer.Reassemble: speaks of a channel with no terminator and nobody else on it; FileTransfer.TerminatorDecides and FileTransfer.CommitsIffInOrder speak of terminators in every interleaving.
- FileTransfer.UploadIsSafe: a network that can deliver a harmful chunk is excluded; by FileTransfer.IntactIffHarmless no weaker condition would do.
- Host.SerialRunsAreExclusive: one deployment finishes before the next begins and each volume deployment follows a successful local query; GpuClaims.dfy speaks of overlapping deployments.
- VirtHost.VirtDaemon.DeployVM: the OS image is an argument; a session whose volume list is empty but not nil, which the code would index, is not modelled.
- Host.State: a file name is its part before ".qcow2" plus a directory; qemu-img either creates the whole file or nothing.
- Timers.HttpServer.Register: a second request with an id that is still pending would replace the first one's entry and is not modelled.
- Timers.InsertByStart: stands for the library sort; only its being a sorted permutation is used.
- Relay.Pair: starts from two existing tenants with one poll at a time each; creating a tenant is not part of the model.
- Rendezvous.Signaling.OnTenant: the map lookup stands for the linear search for the token.
- Registry.ResourcesAreConserved: speaks of serial runs only; a session that overlapping handlers drop from the list is never given its display and machine back.
- Registry.Daemon.Register: starts from the registration step with a fresh id; the error plumbing before it is not modelled, and overlapping handlers are Handlers.Move.
- Registry.Daemon.CloseLocal: the steps of a close with no other handler in between.
- Handlers.Outcome: a stored list is a value; two appends that would share spare capacity of one backing array, and concurrent writes to the map, which the Go runtime may end the process for, are not modelled.
- Virtual displays, shared memory, TURN, discord, pocketbase, backup, system information and the generated protocol code would add only plumbing.

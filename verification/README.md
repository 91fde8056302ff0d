# FloatLab's crash-safe transactions, verified

A Dafny model of the journalled transactions of FloatLab: a host OS upgrade over ZFS boot aliases,
host network changes under a confirm-or-rollback timer, the maintenance fences, the IPv4 pool
allocator, the installer's `zpool create` command, journal forwarding, failover abort and the boot
guard. Every external effect (a `zfs` command, a record write, a netlink call, a push) may fail
before or after taking effect, and the machine or process may die there; the invariants hold
between any two effects, so at every crash point of every run.

| module | models |
|---|---|
| BootLayout, BootPool | the boot aliases under floatlab/os, and Promote, RestoreBoot, FinalizeCommit and Cleanup over them |
| UpdateState, HostUpdate | host.json, the firmware's one-shot selection, the booted release, everything asked of the management coordinators; every action, recovery and reboot |
| NetworkConfig, NetworkKernel | configuration validation; the LAN bridge, bonds, adapters and addresses, and Apply over them |
| NetworkJournal, NetworkManager | the change journal, network.toml, the service table and the rollback timers; submit, apply, confirm, roll back, service aliases, startup |
| Ipv4, Ipam | 32-bit prefix arithmetic; pool definitions, reservations and allocations |
| ApiFence, ControllerFence, HostFence | the three drain fences as interleaved threads |
| ZpoolWords, ZpoolCommand, InstallerStorage | the `zpool create` parser and its printers, on words; the loops that compute them |
| JournalForward, FailoverAbort, BootGuard | at-least-once forwarding, abort against concurrent sequences, the trial deadline |
| Options, Identifiers | shared vocabulary |

Most classes carry a fault model of two fields: `faults` counts disturbed effects, and a flag (`responsive`,
`up`) stays down once the machine or process is gone. `Undisturbed`, `Calm` and `faults ==
old(faults)` say that nothing failed; success is then characterised exactly.

## Where the code falls short of its promise

Each is stated with a witness and with the condition under which the promise does hold.

- Two undisturbed boots settle an interrupted upgrade, or leave it on its trial, exactly when
  `Converges` holds of the record and the layout (`Converge`); otherwise no number of starts
  settles it (`StaysStuck`). A commit request that outlives a power cut converges only if the
  target was already current and selected: otherwise every start refuses it until someone rolls
  back (`RetryLostCommit`). A cleanup request replayed over a commit that is not finalized keeps
  it from ever being finalized, so the management checkpoint is never released.
- A candidate can be confirmed after a rollback or a startup has undone it in the kernel but not
  in the journal; the address put back then outlives every startup (`UndoneIsReached`,
  `ConfirmedWhileUndone`). In every run that happens only if an earlier event of the same boot
  undid that change, reported failure, and was not redone (`NetworkManager.Manager.Run`);
  otherwise what is confirmed is what the kernel has (`Change`). The converse is not claimed: an
  undo that failed may have had no effect on the kernel. The ghost fields `disturbed` and
  `strayed` mark these states in the proofs.
- Startup resets a confirmed configuration to the default if network.toml exists but cannot be
  read and nothing in the journal overrides it (`StartupKeepsConfirmed`).
- A default pool identifier with a line break or NUL is migrated all the same, and every later
  startup refuses the configuration (`MigrateUnclean`).
- SavePool can widen a node pool beyond its reservation; a save leaves its range covered if and
  only if it names the owning node or fits what is reserved (`SaveCovers`, `SavePoolCanOutgrowReservation`).
- A failover's deferred cleanup deletes whichever sequence is registered; an abort then misses a
  running one (`MissedByAbort`, `ExclusiveUntilStrayLeave`).
- A readiness report whose checkpoint was not saved counts again after the guard restarts
  (`StartOver`).
- A journal line without timestamp or cursor stops forwarding for good: a line can be delivered
  if and only if no line from the cursor up to it is bad (`DeliverableIff`), and of the fewer than
  128 lines before a bad one each is delivered if and only if a tick comes between it and the bad
  one (`DeliveredBeforeBad`).
- The editor layout of a command that names the pool before its options does not parse back
  (`FormatParses`), nor does the short layout of a partition (`ShortPartitionFails`).
- A host drain that returned nil covers what follows exactly when the block was in force at its
  last poll, however late it came (`PollSettles`); a block that comes after that poll covers what
  follows exactly when no mutation is past the check (`CoveredIff`, `LateBlockIsUnsafe`).
- A block token may be reused unless the marker still names it or an acknowledgement of it is
  being written; then it is safe only if nothing runs that the block would have to stop
  (`ApiFence.ReuseIff`, `ReusedTokenIsUnsafe`). For the controllers only the marker matters
  (`ControllerFence.ReuseIff`).

## Model

| member | source | states |
|---|---|---|
| BootPool.Pool.Promote | internal/hostupgrade/linux.go:403-471 | interrupted anywhere and re-run, it keeps every layout invariant of an upgrade, so a bootable source or target stays selected; it ends with current from the target, previous and recovery from the source, bootfs on current; undisturbed it succeeds exactly when no foreign alias is in the way; a fallback alias it makes carries the operation's id, and updater-owned aliases stay so; its whole end layout |
| BootPool.Pool.RestoreBoot | internal/hostupgrade/linux.go:577-619 | ends with current from the source and selected; keeps a source alias selected through its renames once one is; undisturbed it succeeds exactly from the layouts that still hold a way back; its whole end layout |
| BootPool.Pool.RestoreAfter | internal/hostupgrade/linux.go:403-619 | after any interrupted promotions and restorations in any order a bootable source or target is selected, and an undisturbed restoration then makes the source current; updater-owned aliases stay updater-owned |
| BootLayout.RestorationUndoesPromotion | internal/hostupgrade/linux.go:403-619 | a restoration after a promotion puts every alias back, but for the operation's mark on the source, the prepared fallback, and the older previous, which stays retired |
| BootLayout.NextUpdatePromotable | internal/hostupgrade/linux.go:409-466 | after a promotion over updater-owned aliases, an update from its target onwards is not refused for a foreign fallback or previous alias |
| BootPool.Pool.SelectRecovery | internal/hostupgrade/linux.go:409-440 | a prepared source fallback is selected before anything current is renamed; undisturbed it fails exactly for a foreign fallback, a missing snapshot or a bad host identity |
| BootPool.Pool.DemoteSource | internal/hostupgrade/linux.go:441-462 | current, if it comes from the source, becomes previous with this operation as owner, and an older previous becomes its retired alias; the fallback stays selected |
| BootPool.Pool.InstallTarget | internal/hostupgrade/linux.go:463-471 | next becomes current and is selected, only if it comes from the target |
| BootPool.Pool.FinalizeCommit | internal/hostupgrade/linux.go:556-576 | removes the trial token from the committed alias and changes nothing else |
| BootPool.Pool.Cleanup | internal/hostupgrade/linux.go:473-554 | from any layout, interrupted and re-run, each destroy names an updater-owned reclaimable alias, or an updater-owned release no remaining alias originates from; a completed run leaves none of either; undisturbed it completes exactly when every reclaimable alias is its own and no other clone holds an unused release; next goes only after recovered or failed, retired aliases only after committed, and then all of them |
| BootPool.Pool.ProtectedOrigins | internal/hostupgrade/linux.go:502-512 | the protected set is exactly the origins of current, previous, next, live and recovery |
| BootPool.Pool.DestroyUnusedReleases | internal/hostupgrade/linux.go:512-554 | destroys only unprotected updater-owned releases and their snapshots; undisturbed it leaves none, exactly when nothing was cloned from them |
| BootPool.CleanupOutcome | internal/hostupgrade/linux.go:473-554 | the two loops together destroy nothing a boot alias still needs |
| UpdateState.BeginRecovery | internal/hostupgrade/manager.go:406-413 | any state short of recovered may turn into recovering |
| UpdateState.RestorationKeeps | internal/hostupgrade/manager.go:413-434 | recovering can always be completed, and a completed restoration is what recovered means |
| UpdateState.PromotionKeeps | internal/hostupgrade/manager.go:237-269 | committing survives an interrupted promotion, and a finished one is what committed means |
| UpdateState.FinalizationKeeps | internal/hostupgrade/manager.go:578-597 | dropping the token keeps committed consistent |
| UpdateState.InvariantIsSound | internal/hostupgrade/manager.go:189-304 | the invariant gives: a bootable release is selected; committed means current is the target and selected; recovered means current is the source; the checkpoint is restored only on the source and released only after committed is durable; a finalized commit carries no trial token |
| HostUpdate.Manager.Restore | internal/hostupgrade/manager.go:406-434 | aliases before checkpoint, on the source only; it reports success only after the management checkpoint was put back; undisturbed it ends recovered |
| HostUpdate.Manager.FinishCommit | internal/hostupgrade/manager.go:578-597 | reports success only once the checkpoint is released, the trial token gone, the boot guard told and the record finalized; undisturbed it succeeds, and from a cleanable layout no retired alias is left; a failing cleanup does not undo it |
| HostUpdate.Manager.DoActivate | internal/hostupgrade/manager.go:198-236 | undisturbed, a staged update ends armed for this boot with the one-shot selection set, after both validations and the checkpoint and before the reboot; an armed or later one is left alone; if the checkpoint, the selection or the reboot alone fails, the source and its management checkpoint are restored |
| HostUpdate.Manager.DoCommit | internal/hostupgrade/manager.go:237-269 | only a ready or committing update running its own trial is promoted; anything else changes nothing; undisturbed it asks for a health check and, once promoted, for everything that finishes the commit |
| HostUpdate.Manager.DoRollback | internal/hostupgrade/manager.go:270-296 | allowed from every state, committed included; before activation it needs no restoration; undisturbed the trial is stopped before the reboot |
| HostUpdate.Manager.Act | internal/hostupgrade/manager.go:189-304 | each action, cleanup included, reaches its outcome as a function of record, layout and running system when nothing fails; which actions leave the record alone whatever happens; what it asks of the coordinators, in order, is a function of the same |
| HostUpdate.Manager.Recover | internal/hostupgrade/manager.go:437-512 | an outstanding request first, replayed without being cleared if it changes nothing; then the boot decides: restore, continue the trial, finish the commit, or refuse; what it asks of the coordinators is a function of record, layout and running system |
| HostUpdate.Manager.Submit | internal/hostupgrade/manager.go:320-404 | refuses without a trace what the state does not admit; otherwise the request is on disk before anything else happens, carried out and cleared |
| HostUpdate.Manager.BecomeReady | internal/hostupgrade/manager.go:515-576 | undisturbed, exactly a trial or ready update becomes ready |
| HostUpdate.Manager.Boot | internal/hostupgrade/manager.go:437-446 | a boot consumes the one-shot selection and comes up with the alias the record says it will |
| HostUpdate.Manager.Run | internal/hostupgrade/manager.go:189-597 | the safety statement after any schedule of requests, recoveries, readiness reports, restarts and power cycles, disturbed anywhere; a commit finalized on the way released the checkpoint and dropped its token, and an attempt that ended recovered put the checkpoint back |
| HostUpdate.Manager.BootAndRecover | internal/hostupgrade/manager.go:437-512 | one undisturbed boot settles a converging record, reaches the trial, or leaves one more boot due; a stuck record stays stuck, disturbed or not |
| HostUpdate.Manager.Converge | internal/hostupgrade/manager.go:437-512 | from every record, two undisturbed boots settle it or leave it on its trial if and only if the outstanding request, state, finalization and layout say so |
| HostUpdate.Manager.StaysStuck | internal/hostupgrade/manager.go:447-450 | from all other records no number of starts does, and an outstanding request stays as it is: a lost commit, a cleanup over a commit not finalized |
| HostUpdate.Manager.RetryLostCommit | internal/hostupgrade/manager.go:447-450 | a commit request whose trial was lost is refused at every start, whatever the number of starts |
| Ipv4.MasksAgree | internal/ipam/pools.go:242-248 | both packages build the same host mask for every length from 0 to 32 |
| Ipv4.LastAddressIsAllOnes | internal/ipam/pools.go:242-248 | the last address is the network with every host bit set (section 7 of RFC 919), inside the prefix and below 2^32 |
| Ipv4.BroadcastTestsAgree | internal/hostnetwork/config.go:193-198 | isBroadcast, the test in IPv4.Prefix and the allocator's last address are one test |
| Ipv4.HighIsInterval | internal/ipam/pools.go:29-45 | the addresses of a prefix are an interval |
| Ipam.ValidPoolIsInterior | internal/ipam/pools.go:29-45 | a valid pool's range excludes the network and the last address, so its end is not the last of all |
| Ipam.SharedNodeAddressesDistinct | internal/ipam/pools.go:98-178 | stacks whose pools share a member node hold different addresses |
| Ipam.HullCovers | internal/ipam/pools.go:98-178 | a reservation covers every range it ever covered |
| Ipam.NodeRangesNeverOverlap | internal/ipam/pools.go:98-178 | overlapping node ranges, committed at any time, belong to one pool |
| Ipam.SavedPoolsSound | internal/ipam/pools.go:98-178 | an accepted definition keeps ranges disjoint and allocations inside their pools |
| Ipam.OverlapOnlyElsewhere | internal/ipam/pools.go:98-130 | a new pool may overlap any stored one that shares no member node with it, and only those |
| Ipam.SaveCovers | internal/ipam/pools.go:86-178 | exactly when a save leaves its range reserved |
| Ipam.SavePoolCanOutgrowReservation | internal/ipam/pools.go:86-90 | a widened node pool that outgrows its reservation |
| Ipam.Database.SavePool | internal/ipam/pools.go:86-178 | undisturbed, accepted exactly when the definition is valid, disjoint on shared nodes and keeps every allocation; then stored whole |
| Ipam.Database.SaveNodePool | internal/ipam/pools.go:91-178 | the same, with the reservation of its one owning node in the same step |
| Ipam.Database.DeletePool | internal/ipam/pools.go:179-192 | refused while an allocation uses the pool; its reservation stays |
| Ipam.Database.AllocateIPv4 | internal/ipam/pools.go:193-228 | the least free host address, and none exactly when none is free |
| Ipam.Database.Fill | internal/ipam/pools.go:205-228 | the loop ends without wrapping, trying addresses in order |
| Ipam.Database.ReleaseIPv4 | internal/ipam/pools.go:238-240 | drops the allocation and the runtime placement together |
| Ipam.Database.Run | internal/ipam/pools.go:86-240 | every invariant, and distinct addresses on shared nodes, after any sequence of operations with failing statements |
| NetworkConfig.PrefixIsHost | internal/hostnetwork/config.go:57-79 | a static address parses exactly when it is a host address with a mask of 1 to 30 ones, the same test a service address has to pass |
| NetworkConfig.PrefixRejectsNetworkAndBroadcast | internal/hostnetwork/config.go:66-79 | the refused host addresses are exactly the all-zeros and all-ones ones |
| NetworkConfig.OneBondPerAdapter | internal/hostnetwork/config.go:97-127 | in a valid configuration an adapter is in at most one bond, and not excluded |
| NetworkConfig.Validate | internal/hostnetwork/config.go:83-155 | accepts exactly the valid configurations |
| NetworkConfig.CheckBonds | internal/hostnetwork/config.go:110-127 | accepts exactly bonds that are well formed, named apart and share no adapter with each other or the excluded ones |
| NetworkConfig.Claim | internal/hostnetwork/config.go:97-107 | accepts exactly distinct valid adapter addresses |
| NetworkKernel.Kernel.Detach | internal/hostnetwork/linux.go:257-280 | releases exactly the uplinks whose master must change, and only from masters this host owns |
| NetworkKernel.Kernel.RemoveBonds | internal/hostnetwork/linux.go:280-288 | deletes this host's bonds the candidate does not name, and no others |
| NetworkKernel.Kernel.BuildBonds | internal/hostnetwork/linux.go:289-346 | every bond exists with its present members, or a foreign interface of that name is an error |
| NetworkKernel.Kernel.AttachUplinks | internal/hostnetwork/linux.go:347-366 | the topology is then a function of the candidate and the inventory |
| NetworkKernel.Kernel.Reconcile | internal/hostnetwork/linux.go:151-366 | converges exactly when nothing foreign is in the way; unmanaged links stay as they are, but for those freed from a deleted bond |
| NetworkKernel.Kernel.Readdress | internal/hostnetwork/linux.go:367-399 | the bridge's addresses afterwards: the old ones less the previous static address, plus the candidate's and every alias; never anything else on the way |
| NetworkKernel.Kernel.Apply | internal/hostnetwork/linux.go:151-415 | topology, hardware address, static address, gateway and aliases on success; undisturbed success exactly when applicable |
| NetworkKernel.Kernel.ThereAndBack | internal/hostnetwork/linux.go:151-415 | from one configuration to another and back restores topology and static address, and can always be done undisturbed if the first was applicable |
| NetworkKernel.ConvergedAgree | internal/hostnetwork/linux.go:240-360 | masters and owned bonds depend on the candidate and the inventory alone, not on history |
| NetworkKernel.StepTransitive | internal/hostnetwork/linux.go:151-366 | what any part of an apply may have done composes |
| NetworkKernel.StepKeepsApplicable | internal/hostnetwork/linux.go:151-366 | whatever an interrupted apply left behind blocks no other configuration |
| NetworkKernel.MemberTarget | internal/hostnetwork/linux.go:245-257 | a bond member's master is its bond |
| NetworkKernel.UplinksDistinct | internal/hostnetwork/linux.go:160-169 | eligible adapters by permanent address are distinct physical links |
| NetworkJournal.StartupKeepsConfirmed | internal/hostnetwork/manager.go:146-200 | exactly when startup goes for the last confirmed configuration |
| NetworkJournal.ChosenIs | internal/hostnetwork/manager.go:150-200 | startup's choice is valid: confirmed, or the default after a read error; before the first success the file's |
| NetworkJournal.UndoneAddresses | internal/hostnetwork/manager.go:414-443 | a finished undo leaves the previous static address and the aliases, nothing of the candidate |
| NetworkJournal.StartedAddresses | internal/hostnetwork/manager.go:185-254 | so does a finished startup, whichever interrupted change or startup came before it |
| NetworkJournal.MovedAddresses | internal/hostnetwork/manager.go:391-412 | an applied candidate has its own address and the aliases, nothing of the previous |
| NetworkJournal.CommitKeeps | internal/hostnetwork/manager.go:461-475 | a confirmation keeps the invariant, and makes what the kernel runs the confirmed configuration |
| NetworkJournal.SettleKeeps | internal/hostnetwork/manager.go:475-482 | NeedsConfig, Startup, or the file equal to Confirmed, between any two writes |
| NetworkJournal.BegunKeeps | internal/hostnetwork/manager.go:215-231 | saving the startup intent before touching the kernel keeps the invariant, across a change of boot |
| NetworkJournal.StartedKeeps | internal/hostnetwork/manager.go:237-254 | startup's own commit ends a pending change |
| NetworkJournal.AddingKeeps | internal/hostnetwork/manager.go:525-548 | with nothing pending, a compatible unclaimed address may join the table |
| NetworkJournal.RemovingKeeps | internal/hostnetwork/manager.go:549-559 | an alias leaves the bridge before it leaves the table |
| NetworkManager.Manager.MigrateUnclean | internal/hostnetwork/manager.go:591-610 | a pool identifier with line breaks or NUL is migrated, and every undisturbed startup after it is refused |
| NetworkJournal.TableEntries | internal/hostnetwork/manager.go:636-657 | a wanted list without repeats is a sound service table |
| NetworkJournal.UndoneIsReached | internal/hostnetwork/manager.go:146-412 | the records an undisturbed startup, request and apply write one after the other, up to an awaiting change, and the addresses with them |
| NetworkJournal.ConfirmedWhileUndone | internal/hostnetwork/manager.go:414-443 | an undo of that change that reached the kernel only, the confirmation after it, and the address no startup removes |
| NetworkManager.Manager.ValidateServices | internal/hostnetwork/manager.go:292-307 | accepts exactly when every service fits the static configuration |
| NetworkManager.Manager.VerifyServices | internal/hostnetwork/manager.go:683-711 | returns success only over a lease compatible with every service; undisturbed it succeeds if the lease already is |
| NetworkManager.Manager.Submit | internal/hostnetwork/manager.go:308-376 | undisturbed, exactly the acceptable requests become a change; a repeated key returns the change it made, or nothing for another request |
| NetworkManager.Manager.CheckConnected | internal/hostnetwork/manager.go:342-364 | every bond member present, and an uplink left |
| NetworkManager.Manager.ApplyChange | internal/hostnetwork/manager.go:377-413 | undisturbed, and with no lease in the way, it succeeds exactly when the bridge has an address, nothing foreign hinders the candidate and the deadline, 60 seconds after the start, is still ahead: the candidate is then in force with its gateway and hardware address, the change awaits confirmation and its timer is armed; otherwise the previous configuration comes back wherever nothing foreign hinders it, and nothing is pending; whether it succeeds or not, it leaves no doubt about what a confirmation would confirm |
| NetworkManager.Manager.Launch | internal/hostnetwork/manager.go:388-412 | the same from the armed timer on; no single fault the process survives leaves the change pending without its timer |
| NetworkManager.Manager.Restore | internal/hostnetwork/manager.go:414-444 | the previous configuration in force with its gateway, in the file and in the journal, and the timer gone; undisturbed it succeeds whenever nothing foreign has come up since, and otherwise the change is recorded as failed; no configuration becomes less applicable |
| NetworkManager.Manager.Confirm | internal/hostnetwork/manager.go:445-486 | undisturbed, exactly an awaiting change strictly before its deadline becomes confirmed; journal and file then agree, and the kernel with them unless an undo was left unfinished; a confirmation that comes too late restores the previous configuration |
| NetworkManager.Manager.Change | internal/hostnetwork/manager.go:308-486 | request, apply and confirmation that all report success leave journal, file and kernel with the configuration asked for; undisturbed, an acceptable and applicable request in time gets there |
| NetworkManager.Manager.Rollback | internal/hostnetwork/manager.go:487-508 | the timer only after the deadline; confirmed and rolled back are final; undisturbed, rolling back a change that is final succeeds, and a rollback that fails is recorded |
| NetworkManager.Manager.SetService | internal/hostnetwork/manager.go:509-560 | undisturbed, granted exactly when settable; refused while a change is pending; table and bridge together; on success exactly its address enters or leaves the bridge |
| NetworkManager.Manager.SyncServices | internal/hostnetwork/manager.go:629-681 | on success the table is the wanted one, every wanted address is on the bridge and, unless a confirmation strayed, no other alias is |
| NetworkManager.Manager.MigrateDefault | internal/hostnetwork/manager.go:591-610 | fills an unset default pool with whatever it is given; undisturbed refused exactly while a change is pending |
| NetworkManager.Manager.Choose | internal/hostnetwork/manager.go:150-200 | the loops and branches of startup compute the choice and what the kernel is taken to have |
| NetworkManager.Manager.Initialize | internal/hostnetwork/manager.go:146-254 | on success kernel, network.toml and Confirmed agree (the addresses unless a confirmation strayed), nothing is pending, Confirmed is valid, and it is the last confirmed configuration unless the file could not be read; undisturbed it is refused without a trace when the choice is invalid or no adapter lends an address, and succeeds whenever the choice is unhindered; the bridge keeps the hardware address it had, or gets that of the first eligible adapter the configuration does not exclude |
| NetworkManager.Manager.Reboot | internal/hostnetwork/manager.go:175-184 | a new boot keeps the invariant with an empty bridge |
| NetworkManager.Manager.Run | internal/hostnetwork/manager.go:146-681 | after any schedule: final changes stay final, one key makes at most one change, at most one is applying or awaiting and its previous is Confirmed, service addresses are distinct, NeedsConfig or Startup is set or the file equals Confirmed, and no address on the bridge is unaccounted for unless a confirmation came after an undo of its change that failed in the same boot and was not redone; the bridge's hardware address is never changed; once startup is over a change awaiting confirmation has a rollback timer at its deadline |
| NetworkManager.Manager.Handle | internal/hostnetwork/manager.go:146-681 | the only ways to a new confirmed configuration; which failed events leave an awaiting change in doubt and which end it; the service table is frozen while a change is pending |
| ApiFence.FencedKeeps | internal/control/update_fence.go:15-99 | zero counted requests after the evaluator stopped means nobody was admitted before the block |
| ApiFence.StepKeeps | internal/control/update_fence.go:15-99 | every step of every thread keeps the fence |
| ApiFence.DrainIsSafe | internal/control/update_fence.go:15-99 | a marker equal to the block token means no admitted mutation and no evaluator, in every interleaving whose blocks take tokens nothing claims |
| ApiFence.QuietUntilUnblocked | internal/control/update_fence.go:46-99 | and it stays so until the block is lifted or replaced |
| ApiFence.QuietIterationAcknowledges | internal/control/update_fence.go:67-92 | an undisturbed iteration over a drained API acknowledges |
| ApiFence.ReuseIff | internal/control/update_fence.go:15-99 | blocking with any token at any moment is safe ever after exactly when neither the marker nor an acknowledgement being written names it, or nothing runs or is about to |
| ApiFence.ReusedTokenIsUnsafe | internal/control/update_fence.go:80-88 | a reachable state in which blocking again with the token the marker names would cover a running mutation |
| ControllerFence.StepKeeps | cmd/floatlab-control/update_runtime.go:24-72 | every step keeps the controllers' fence |
| ControllerFence.ControllersStayStopped | cmd/floatlab-control/update_runtime.go:24-72 | once the block in force is acknowledged no controller runs until it is lifted or replaced, when no block takes the token the marker names |
| ControllerFence.IterationAcknowledges | cmd/floatlab-control/update_runtime.go:37-66 | one undisturbed iteration acknowledges |
| ControllerFence.ReuseIff | cmd/floatlab-control/update_runtime.go:37-66 | blocking with any token at any moment is safe ever after exactly when the marker does not name it, or no controller runs or is about to |
| HostFence.StepKeeps | internal/hostd/update_fence.go:15-49 | every step under the mutex keeps the count and the drain's promise |
| HostFence.DrainedMeansNoneInFlight | internal/hostd/update_fence.go:33-49 | with the block in force at the poll that returned nil and since, none is in flight, nor will be until it is lifted |
| HostFence.PollSettles | internal/hostd/update_fence.go:33-49 | after the poll that returns nil no continuation has a mutation in flight under the block, if and only if the block is in force at that poll |
| HostFence.CoveredIff | internal/hostd/update_fence.go:15-31 | at any moment a block covers every continuation if and only if nobody counted or past the check is left |
| HostFence.LateBlockIsUnsafe | internal/hostd/update_fence.go:15-49 | a block created after the poll that returned nil is not covered: a run with a mutation in flight |
| ZpoolWords.SplitFront | internal/installer/storage.go:225-266 | the option loop takes the longest front of options |
| ZpoolWords.FrontSplit | internal/installer/storage.go:225-266 | and any front of options before a word that is none |
| ZpoolWords.KeptAgain | internal/installer/storage.go:225-266 | options kept are kept again |
| ZpoolWords.PropertyVerdicts | internal/installer/storage.go:236-264 | which properties an operator may set to what, and the three that must stay as they are |
| ZpoolCommand.ParseCanonical | internal/installer/storage.go:209-302 | parsing the parser's own arguments gives them back |
| ZpoolCommand.ParseWholeDisk | internal/installer/storage.go:209-326 | so does parsing them with any partitions replaced by whole disks |
| ZpoolCommand.DevicesByKinds | internal/installer/storage.go:273-302 | device words are read by what they stand for alone |
| ZpoolCommand.FormatParses | internal/installtui/choices.go:20-33 | the editor's layout parses to the same arguments unless the pool comes before options |
| ZpoolCommand.ShortParses | internal/installtui/choices.go:36-57 | so does the short layout when disks are named whole |
| ZpoolCommand.ShortPartitionFails | internal/installtui/choices.go:45-53 | the short name of a partition does not parse back |
| ZpoolCommand.CommandNamesDisks | internal/installer/storage.go:304-314 | commandDisks finds exactly the disks named, once each, in order, all eligible |
| ZpoolCommand.GeneratedParses | internal/installer/storage.go:190-207 | the generated command parses to its own arguments, fixed ones first |
| ZpoolCommand.GeneratedLayoutParses | internal/installtui/choices.go:20-33 | and so does its layout |
| InstallerStorage.ParseZPool | internal/installer/storage.go:209-302 | the index loops, kept slices and seen map compute the parse the round trips are about |
| InstallerStorage.ListDisks | internal/installer/storage.go:304-314 | the nested loops compute the disks of CommandNamesDisks |
| InstallerStorage.ReplacePartitions | internal/installer/storage.go:316-326 | the in-place loop computes the words of ParseWholeDisk |
| InstallerStorage.FormatPoolCommand | internal/installtui/choices.go:20-33 | the loop computes the layout of FormatParses |
| InstallerStorage.ShortPoolCommand | internal/installtui/choices.go:36-57 | the loops compute the layout of ShortParses, the last matching disk deciding |
| InstallerStorage.ImageSizeIsLeast | internal/installer/storage.go:182-188 | the least whole number of GiB with 2 GiB to spare, and at least 8 |
| InstallerStorage.ValidateSelection | internal/installer/storage.go:332-347 | accepts exactly nonempty selections of installable disks without repeated devices |
| JournalForward.DistinctIsPrefix | internal/hostd/journal.go:65-140 | what arrived, repeats removed, is an unbroken prefix of the journal in order |
| JournalForward.BatchKeepsGapless | internal/hostd/journal.go:96-113 | a batch starting at the cursor leaves no gap |
| JournalForward.Forwarder.Flush | internal/hostd/journal.go:96-113 | the cursor moves only after the batch is acknowledged |
| JournalForward.Forwarder.Stream | internal/hostd/journal.go:114-140 | undisturbed it comes to exactly what the schedule of arrivals, ticks and failures comes to; disturbed it gets no further and skips nothing |
| JournalForward.GoodArrivals | internal/hostd/journal.go:114-140 | good lines are delivered batch by batch of 128 as they arrive |
| JournalForward.ArrivalsThenTick | internal/hostd/journal.go:114-140 | with no bad line in the way, k arrivals and a tick deliver k lines, or all there are |
| JournalForward.BadArrival | internal/hostd/journal.go:125-132 | a bad line ends the stream with only whole batches before it delivered |
| JournalForward.DeliveredBeforeBad | internal/hostd/journal.go:114-140 | each of the fewer than 128 lines before a bad one is delivered exactly when a tick comes between |
| JournalForward.DeliverableIff | internal/hostd/journal.go:125-132 | a line can be delivered exactly when no line from the cursor up to it is bad |
| JournalForward.Forwarder.Run | internal/hostd/journal.go:22-140 | after any streams, failures and restarts every line up to the cursor has arrived, and the cursor has passed no bad line |
| FailoverAbort.StepKeeps | internal/failover/sequence.go:42-114 | every step keeps aborted sequences from the takeover |
| FailoverAbort.AbortIsHonoured | internal/failover/sequence.go:42-92 | a sequence an abort cancelled never takes an address over nor starts the secondary |
| FailoverAbort.ExclusiveStep | internal/failover/sequence.go:42-52 | the registered sequence stops being the only one preparing exactly when one leaves while another is registered and preparing |
| FailoverAbort.ExclusiveUntilStrayLeave | internal/failover/sequence.go:42-52 | in any run every state up to the first such stray leave has no preparing sequence but the registered one, and the state right after it has |
| FailoverAbort.ExclusiveAbort | internal/failover/sequence.go:309-317 | meanwhile a failing abort had nothing to abort |
| FailoverAbort.MissedByAbort | internal/failover/sequence.go:52 | a reachable state in which an abort misses a preparing sequence |
| BootGuard.GuardState.Observe | internal/hostupgrade/guard.go:55-62 | only a fresh readiness report for this trial counts |
| BootGuard.Guard.Start | internal/hostupgrade/guard.go:71-116 | a restart keeps the checkpoint and its deadline; a checkpoint that does not parse, or starts outside this boot, is refused |
| BootGuard.Guard.Tick | internal/hostupgrade/guard.go:117-160 | without a fresh report it reboots exactly from the deadline on; with one, heartbeat and checkpoint move to it or the guard stops |
| BootGuard.Guard.Run | internal/hostupgrade/guard.go:83-160 | over any reports, ticks and restarts each tick finds the checkpoint the one before left, goes by the deadline that one left in memory or, after a restart, by the checkpoint's, and moves the checkpoint only for a fresh report; a reboot or a finished commit is the last |
| BootGuard.LastFresh | internal/hostupgrade/guard.go:55-68 | the checkpoint is that of the last fresh report saved, or the one at the start |
| BootGuard.NeverEarly | internal/hostupgrade/guard.go:117-160 | over such a run no reboot comes before the checkpoint's deadline, less the time it takes to save a report |
| BootGuard.Guard.RunUnrenewed | internal/hostupgrade/guard.go:83-160 | repeated nonces, other trials' messages and other states never move the deadline, nor do ticks and restarts, and a tick past it ends in the reboot or a finished commit |
| BootGuard.Guard.StartOver | internal/hostupgrade/guard.go:83-144 | after a restart the report on file counts again if and only if its nonce was not saved |
| BootGuard.ScanTrial | internal/hostupgrade/guard.go:17-31 | a token exactly when one well-formed trial word is there |

## Left out

- Downloads, checksums, archive extraction, EFI files and Prepare: staging is its result, a bootable `next`.
- HostUpdate.Manager.Submit: the idempotency file is not modelled; a key accepted and a request recorded are two writes.
- HostUpdate.Manager.Act: reads of host.json while the machine is up are taken to succeed; a read error between the request and the action would let Submit write an empty record.
- HostUpdate.Manager.Boot: an operator's choice in the boot menu is modelled from activation on, not before.
- HostUpdate.Manager.Converge: an update prepared over a predecessor whose commit was not finalized, whose current alias still carries its trial token (internal/hostupgrade/manager.go:98-126), is not modelled: the source starts without one.
- HostUpdate.Manager.Run: readiness is one event; the minute of health checks behind it, and the checks for missing coordinators, are not modelled.
- BootPool.Pool.Cleanup: the exact condition supposes that no release is itself a clone; a `zfs list` that answers wrongly while the pool is up is not modelled; a leftover retired alias from another update makes it stop, as in the code.
- BootLayout: release names never collide with alias names, which release parsing guarantees.
- NetworkManager.Manager.Run: requests are served only after a startup has succeeded in this boot (internal/hostd/server.go:102-120); network.toml is not edited by hand; Status, Get, Retry and the DHCP watch only read or wait.
- NetworkManager.Manager.Launch: a rollback timer stays until it is cancelled or the machine reboots; that it fires is an event of the schedule.
- NetworkManager.Manager.Submit: Revision is an injective value, and identifiers are fresh.
- NetworkConfig.Validate: addresses, masks and adapter addresses are modelled after parsing; text normalisation and IPv6 DNS servers are not.
- NetworkKernel.Kernel.Reconcile: creating a link and owning it is one effect; the code creates it, waits for udev and sets the ownership alias (internal/hostnetwork/linux.go:178-192, 299-316), and relies on the udev policy it wrote before (520-537) if it dies in between.
- NetworkKernel.StepKeepsApplicable: for the same reason it says nothing of a link left without its ownership alias.
- NetworkKernel.Kernel.Apply: DHCP lease removal, ARP, udev, systemd units, STP and DNS commands are opaque calls; masters are kernel links that exist; secondary addresses survive the removal of a primary one.
- Ipam.Database.AllocateIPv4: the pool passed is the stored one; MigratePools, subnet inference and IPv6 are not modelled.
- ZpoolCommand.ParseCanonical: commands are words split on whitespace and ASCII; quoting is not modelled; disk names are absolute and free of shell characters.
- JournalForward.Forwarder.Stream: which fields a line carries is not modelled; a cursor is its position; one boot.
- FailoverAbort.AbortIsHonoured: the Raft, database and host steps are abstract; Restore is not modelled, since it has no uniform end state.
- BootGuard.Guard.Tick: one clock stands for both the process clock and CLOCK_BOOTTIME, so a suspended machine is not modelled; the two reboot commands are one outcome.
- ApiFence.StepKeeps: the supervisors, request handlers and failover sequences are modelled as the atomic steps of their loops, not as loops, so that they can be interleaved.
- HTTP handlers, encodings, authentication, the terminal and web interfaces, metrics and the build scripts.

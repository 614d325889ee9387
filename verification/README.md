# spwn: a verified model of its shared state

spwn is a VM platform. One control plane and several host agents share a table of VMs; each agent
runs processes and network devices on its host; and the names of the VMs are routed by one or more
Caddy instances. This project models how those parts are kept in agreement, and proves it:

- **Quota** (`Quota`, `Admission`, `LateWrites`, `Starts`): `start_vm` as a concurrent admission protocol of
  serializable transactions over stale snapshots, safe in every interleaving.
- **Routes** (`RouterSync`, `Regions`, `Agreement`, `Operations`, `Rebuild`, `ControlPlane`,
  `Service`): the route arrays refine maps, the start-up rebuild establishes the agreement between
  VM rows and routes, and every operation keeps it. The methods of the classes are each proved to be
  one step of the abstract runs that the theorems are about.
- **Repair** (`Heartbeats`, `AgentReconcile`, `Taps`): the control plane's repair from heartbeats with
  its cache, and the agent's passes over one snapshot, with their exact fixed points.
- **Placement and addressing** (`Scheduler`, `Drain`, `Addressing`): host choice, draining, slots,
  addresses and subnets.
- **Names, logs and buffers** (`Names`, `Usernames`, `Watcher`, `EventLog`, `Metrics`, `HumanBytes`).

`Fleet` holds the rows and the one-statement updates that are the atomic steps; `Decimal` the
printing and reading of numbers. What the environment decides (clock, fresh ids, random suffixes,
Unicode lowercasing, the answers of agents, of the database at commit and of Caddy) is an input or a
nondeterministic choice. The database's serializable isolation is taken as this: of two reservations
of one account whose transactions overlap, at most one commits. A query without ORDER BY yields its
rows in an arbitrary order (`Fleet.Select`).

## Where the code does less than it may seem to

Each of these is proved, with the exact condition under which the code does meet the expectation.

- The quota additions are in `i64` and `i32`; a request whose sum leaves the type is admitted
  (`Quota.CheckExact`, `Quota.WrapAdmitsTooMuch`). In a build with overflow checks it panics instead.
- The agent's write of 'running' does not look at the quota. One that comes late can exceed it at once
  (`LateWrites.LateRunningWriteBreaksQuotaIff`), or fit, and let a transaction with an older snapshot exceed
  it (`LateWrites.OpenTransactionBreaksQuotaIff`). When it is safe for every run that follows is exactly
  `LateWrites.LateWriteIsSafeIff`.
- `start_vm` gives its reservation back when the agent declines, not when the call itself fails
  (`Starts.FailedStartGivesBackIff`). The documentation of `check_quota_and_reserve`
  promises a retry on conflict; a conflict reported by a statement before the commit is a database
  error there and is not retried, and the model follows the code: a start is retried exactly when its
  commit reports the conflict (`Starts.Reserve`, `Admission.RetriedIff`).
- A control plane that has just started takes a host's empty first heartbeat for an unchanged one
  (`Heartbeats.FirstHeartbeatIff`).
- A VM that an agent's reconciliation marks as failed keeps its route, and heartbeats do not repair
  it (`Heartbeats.StaleRouteSurvives`); `Heartbeats.ReconcileRepairsRouteIff` says which routes they repair.
- Moving a VM keeps its route right exactly within one Caddy instance (`Operations.MoveKeepsAgreementIff`,
  `Operations.MoveBreaksAgreement`), and draining can leave it (`Drain.MigrationKeepsAgreementIff`,
  `Drain.DrainBreaksAgreement`).
- The agent's repair always needs at most three rounds (`AgentReconcile.ThreeRoundsReachFixedPoint`); when
  two or one suffice is exactly `AgentReconcile.TwoRoundsSettleIff` and `AgentReconcile.OneRoundSettlesIff`.
- Device names such as `fc-tap-07` are read as another device's slot (`Taps.SweepExactIff`, `Taps.TrackedDeviceLostIff`).
- A region asked for beside label requirements that are not an object is dropped
  (`Scheduler.RegionIsEnforcedIff`).
- The comment in `ip.rs` speaks of slots 1-254, the slot search goes to 65534; addresses are right
  exactly below 256 (`Addressing.GuestIpIsWrittenIff`).
- A host that registers while its watch loop is leaving is not watched afterwards; every other registered
  host is watched until a loop finds it gone (`Watcher.RegistrationHoldsIff`), but at the address
  it gave when it was last unwatched (`Watcher.RegisteredAddressIff`).
- A stream that lasted does not start the pauses over: only a loop's first one is a second
  (`Watcher.PauseIsOneIff`).

## Model

| member | source | states |
|---|---|---|
| Admission.QuotaHoldsInEveryRun | crates/db/src/lib.rs:1318-1393 | in every interleaving of any number of starts (snapshot, three checks, commit or abort, one retry) with stops, crashes, refusals, insertions, deletions and resizes of idle VMs, no account exceeds its VM, vCPU or memory limit, and no start runs more than two transactions |
| Admission.RunKeepsInv | crates/db/src/lib.rs:1318-1393 | the protocol invariant behind it: an open snapshot saw at least the usage of now unless another reservation of the same account has committed since |
| Admission.CommitKeepsInv | crates/db/src/lib.rs:1344-1390 | the step where it could fail: what was checked on a stale snapshot still holds of the table when the commit succeeds |
| Admission.ApplyKeepsInv | crates/control-plane/src/ops.rs:148-185 | every event of the protocol, the agent's answers included, keeps the invariant |
| Admission.RefusedStartGivesBack | crates/control-plane/src/ops.rs:180-183 | a start refused by the agent lowers the account's usage by exactly what the row held, and moves nobody else's |
| Admission.ReserveThenRefuseIsNeutral | crates/control-plane/src/ops.rs:148-185 | reserving an idle VM and having it refused leaves every account's usage as it was |
| Starts.FailedStartGivesBackIff | crates/control-plane/src/ops.rs:171-183 | a failed start of an idle VM leaves every account's usage as it was if and only if the call to the agent did not fail on the way; when it did, the function returns early and the VM stays 'starting' |
| Admission.SnapshotChecksAloneAreNotEnough | crates/db/src/lib.rs:1327-1330 | two starts checked on one snapshot both pass and together exceed the limit, so the serializable isolation is needed |
| Quota.UsedSplit | crates/db/src/lib.rs:1348-1359 | the aggregate over the account's running and starting rows can be taken apart at any row, in any order |
| Quota.UsedAfterWrite | crates/db/src/lib.rs:1348-1359 | writing one row moves an account's usage by the difference of the row's weights |
| Quota.UsedMeans | crates/db/src/lib.rs:1348-1359 | the aggregate, said of the columns: no rows use nothing, and each further row adds one VM, its vCPUs and its memory exactly if it is the account's and 'running' or 'starting' |
| Quota.WithinQuotaMeans | crates/db/src/lib.rs:1361-1376 | within quota means, for every account, at most vm_limit such rows, vcpu_limit vCPUs and mem_limit_mb of memory among them |
| Quota.CheckExact | crates/db/src/lib.rs:1361-1376 | the three comparisons admit exactly the requests that fit, plus those whose true sum no longer fits the i64 or i32 it is added in |
| Quota.WrapAdmitsTooMuch | crates/db/src/lib.rs:1371-1376 | concrete memory limits for which the wrapped i32 sum admits a request past the limit |
| Quota.RunningWriteKeepsQuotaIff | crates/db/src/lib.rs:342-361 | the table right after the unchecked write of 'running' is within quota if and only if the row was already reserved or still fits |
| LateWrites.LateWriteIsSafeIff | crates/db/src/lib.rs:342-361 | the limits hold in every run that follows such a write, to any VM in any reachable state, if and only if they hold right after it and the VM of every transaction that is open then and can commit fits beside the rest of the table |
| LateWrites.SafeIff | crates/db/src/lib.rs:1318-1393 | the states from which the limits hold in every run are exactly those within quota in which every transaction that can commit still fits |
| LateWrites.FittingLateWritesKeepQuota | crates/db/src/lib.rs:342-361 | the limits hold over every run with any number of late writes that each fit in this sense when they are made |
| LateWrites.MixedRunKeepsCoherent | crates/db/src/lib.rs:342-361 | what the condition presupposes of a state is kept by every run, late writes included |
| LateWrites.OpenTransactionBreaksQuotaIff | crates/db/src/lib.rs:1344-1390 | start b, stop b, begin a's transaction, late write to b: the table stays within quota and a's transaction commits on its older snapshot, and a limit is exceeded then exactly if a and b do not fit together |
| LateWrites.OpenTransactionBreaksQuota | crates/db/src/lib.rs:1344-1390 | a concrete such run, with a limit of one VM and two active ones after the commit |
| LateWrites.LateRunningWriteBreaksQuotaIff | crates/db/src/lib.rs:342-361 | start b, stop b, start a, for any two stopped VMs of an account that each fit alone: the run stays within quota, and the agent's late write of 'running' for b then exceeds a limit exactly if a and b do not fit together |
| LateWrites.LateRunningWriteBreaksQuota | crates/db/src/lib.rs:342-361 | a concrete such run, with a limit of one VM and two running at the end |
| LateWrites.UncontendedStartReserves | crates/db/src/lib.rs:1318-1393 | a start that nothing comes between reserves every VM that fits |
| Starts.Usage | crates/db/src/lib.rs:1348-1359 | the loop over the rows computes the three aggregates of the specification |
| Starts.CheckQuotaAndReserve | crates/db/src/lib.rs:1318-1393 | the transaction writes 'starting' exactly when the check admits the request and no conflict is reported; it reports a conflict as such exactly when the commit of an admitted request does, and as a database error when a statement does |
| Starts.Reserve | crates/control-plane/src/ops.rs:153-169 | the reservation succeeds exactly when the request is admitted and the first transaction commits, or conflicts at its commit and the second one commits; so of the conflicts of the first one exactly those reported at commit are made good by a second that commits |
| Admission.RetriedIff | crates/db/src/lib.rs:1379-1390 | in the interleaved protocol an admitted start whose first transaction conflicts while its VM still fits can reserve in some later run if and only if the commit reported the conflict |
| Starts.StartVm | crates/control-plane/src/ops.rs:148-185 | said of the row: untouched without a reservation, 'stopped' when the agent has no client or declines, 'starting' when the call fails or is accepted, every other column and row as before; a failed start of an idle VM gives its place back unless the call failed |
| Starts.AloneIsBeginAndCommit | crates/db/src/lib.rs:1318-1393 | run alone, the transaction is the Begin and Commit of the interleaved protocol |
| Starts.AnswersLeave | crates/control-plane/src/ops.rs:171-185 | the interleaved protocol leaves the same: after an admitted start alone, a refusal leaves the row 'stopped', a failed call and a start in progress leave it 'starting', and no other row changes |
| Operations.ControlPlaneRunsAgree | crates/control-plane/src/ops.rs:51-592 | over every run of create, patch (name, port, visibility, in any combination), username change, delete, streamed events, heartbeat reconciliation and agents' status writes that do not change which VMs are running: each VM has exactly one route, for its name at its own instance, to ip:port exactly when it is 'running' and to the stopped page otherwise, and no route belongs to no VM |
| Operations.AgreementHoldsInEveryRun | crates/control-plane/src/events.rs:107-158 | the same with agents writing statuses on their own at any time: routes and names still correspond one to one, and only the VMs that lag behind such a write can have a wrong target |
| Operations.StepKeepsAgreement | crates/control-plane/src/ops.rs:288-346 | one operation keeps the agreement up to the lagging VMs and catches up with every VM whose route it writes from its row: the created, renamed, deleted or reported one, a running one whose port changes, those a username change renames, those a heartbeat looks at |
| Operations.MoveKeepsAgreementIff | crates/db/src/lib.rs:324-331 | moving VMs between hosts, or relabelling hosts, without touching routes keeps the agreement if and only if every VM's instance stays the same |
| Operations.MoveBreaksAgreement | crates/db/src/lib.rs:324-331 | a concrete move, from a host of one instance to a host of another, that breaks an agreement |
| Drain.MigrationKeepsAgreementIff | crates/control-plane/src/migration.rs:123-132 | a completed migration keeps the agreement if and only if the target is served by the instance the VM had and the VM is routed as before |
| Drain.DrainBreaksAgreement | crates/control-plane/src/migration.rs:185-192 | a concrete tick whose fallback outside the VM's region moves it to another instance and breaks the agreement |
| Operations.UsernameChangeKeepsAgreement | crates/control-plane/src/ops.rs:552-592 | setting each new route and deleting each old one, over the renamed list in any order, ends with exactly the new routes, right also for renamed VMs whose route lagged |
| Operations.ResyncKeepsAgreement | crates/control-plane/src/ops.rs:552-592 | half-way through that loop the routes are the right ones for the table with just the VMs dealt with so far renamed |
| Operations.BeatAllKeepsAgreement | crates/control-plane/src/registration.rs:103-147 | the heartbeat repair keeps the agreement and catches up with every VM it looks at |
| Operations.BeatAllRows | crates/control-plane/src/registration.rs:103-147 | the loop repairs each listed row from its own report and leaves the others, whatever the order |
| Agreement.WrittenKeepsAgreement | crates/control-plane/src/ops.rs:302-323 | the step all operations are made of: write one row, set the route of its name, delete the route of its former name |
| Agreement.AgreementMeans | crates/control-plane/src/main.rs:317-382 | the agreement, said of the columns: which instances have a table, where each VM's name is routed at its own, and that every route belongs to a VM |
| Agreement.ErasedKeepsAgreement | crates/control-plane/src/ops.rs:199-220 | removing a row and its route keeps the agreement |
| Agreement.RowsOnlyKeepsAgreement | crates/db/src/lib.rs:333-340 | rewriting rows without touching names, hosts or routes puts out of date only the VMs whose target changes |
| ControlPlane.ControlPlaneOps.CreateVm | crates/control-plane/src/ops.rs:51-146 | creation changes nothing or is one Create step. Said of the columns: the host is active, was seen within 60 seconds, has the vCPUs and the memory left and the required labels, and no such host has less free memory, or more when spreading; the row is stopped, without process and device, with the requested sizes, that host's region, an address no VM of the host has, and an unused name made from the requested one. It is refused only for one of the listed reasons |
| ControlPlane.EligibleMeans | crates/control-plane/src/scheduler.rs:36-67 | the scheduler's request for a creation, with its merged labels, selects exactly the active, fresh hosts with the vCPUs, the memory and the labels asked for |
| ControlPlane.ControlPlaneOps.DeleteVm | crates/control-plane/src/ops.rs:199-220 | only a stopped VM with a known host is deleted; then the step is the Delete of the runs, otherwise nothing changes |
| ControlPlane.ControlPlaneOps.UpdateVm | crates/control-plane/src/ops.rs:288-346 | a patch of name, port and visibility is one Patch step. Said of the columns: exactly the given ones are written, in exactly this row; a new name, and a new port of a running VM, is routed at once to the address and the low sixteen bits of the port or to the stopped page, and the former name's route is gone. It fails, and changes nothing, exactly when there is no such VM or no name can be generated |
| ControlPlane.PatchMeans | crates/control-plane/src/ops.rs:288-346 | the Patch step of the runs writes exactly the given columns and routes of exactly this VM |
| ControlPlane.ControlPlaneOps.RenameVm | crates/control-plane/src/ops.rs:294-324 | new column, new route, then deletion of the old route amount to the Rename of the specification |
| ControlPlane.ControlPlaneOps.ChangeVmPort | crates/control-plane/src/ops.rs:326-341 | the route is rewritten exactly for a running VM, with the low sixteen bits of the port |
| ControlPlane.ControlPlaneOps.ChangeUsername | crates/control-plane/src/ops.rs:519-594 | of the account's rows, each named front.old is renamed front.new, with the lowercased request, and re-routed, and every other row stays; or nothing changes. Unless one username is the other behind a dot it is one ChangeUsername step, and a valid request (3 to 32 ASCII letters, digits and hyphens) is refused exactly when another account has the username or a VM holds one of the new names |
| ControlPlane.CreatedInItsRegion | crates/control-plane/src/ops.rs:79-137 | a VM asked for in a region, with label requirements absent or an object, lands on a host labelled with it and records it |
| ControlPlane.CreationIsAddressingStep | crates/control-plane/src/ops.rs:100-102 | a creation is a step of the addressing runs |
| Service.ControlPlaneService.HandleEvent | crates/control-plane/src/events.rs:107-158 | a start writes and broadcasts 'running', a stop 'stopped', a crash 'error', and the VM's name is routed accordingly at its own instance; any other event changes and sends nothing, and one about an unknown VM only sends |
| Service.ControlPlaneService.Stream | crates/control-plane/src/events.rs:94-163 | a whole stream is the run of its events: a VM's last item that carries a status decides its status, a VM without one stays as it is, and one status is sent for each item that carries one, in the order of the stream |
| Service.StreamIsRun | crates/control-plane/src/events.rs:94-163 | and that run is a run of Event steps, so the agreement theorem covers it |
| Service.ControlPlaneService.ReconcileFromHeartbeat | crates/control-plane/src/registration.rs:92-149 | the loop over the host's rows, fetched once in any order, computes the repair: a running row that is not reported becomes 'error', a stopped or failed one that is reported becomes 'running', their routes and those of rows that stay running follow, and no other row or column changes |
| Service.ReconcileMeans | crates/control-plane/src/registration.rs:103-147 | the reconciliation of the specification, in any order of the rows, said of each row's columns and of its route |
| Service.ControlPlaneService.Heartbeat | crates/control-plane/src/registration.rs:57-89 | of the host exactly load, time and status are written, a draining one staying draining and any other becoming active, and no other host changes; unless the reported set equals the cached one, each row of the host is repaired: running and not reported becomes 'error', stopped or failed and reported becomes 'running', the others stay, and the routes follow |
| Service.HeartbeatKeepsAgreement | crates/control-plane/src/registration.rs:57-89 | a heartbeat keeps the agreement whether it is reconciled or skipped |
| Service.StartedEventsAreHandled | crates/control-plane/src/events.rs:113-127 | handling the Started events of an agent's round, in any order, sets exactly those rows to 'running' |
| Heartbeats.ReconcileRepairs | crates/control-plane/src/registration.rs:92-149 | after a reconciliation each VM of the host that was running, stopped or in error is running exactly when reported; all other rows are unchanged; and doing it again, in any order, changes no row and no route |
| Heartbeats.QuietIff | crates/control-plane/src/registration.rs:111-145 | a VM is left alone, row and route, exactly when its status and route already are what the report asks for |
| Heartbeats.CacheIsTransparent | crates/control-plane/src/registration.rs:71-85 | over any run of heartbeats with nothing else writing, skipping those equal to the cached set gives the same rows and routes as reconciling every time, if each unknown host's first heartbeat reports some VM |
| Heartbeats.FirstHeartbeatIff | crates/control-plane/src/registration.rs:73-74 | an absent cache entry counts as the empty set: a first heartbeat is handled like a reconciliation exactly when it reports something or there was nothing to repair |
| Heartbeats.EmptyFirstHeartbeatSkips | crates/control-plane/src/registration.rs:73-74 | the empty first heartbeat of any unknown host changes no row and no route, though a reconciliation would mark each of its running VMs |
| Heartbeats.EmptyFirstHeartbeatIsLost | crates/control-plane/src/registration.rs:73-74 | a concrete agreeing state in which a host that restarts empty keeps its VM 'running' in the table |
| Heartbeats.ReconcileRepairsRouteIff | crates/control-plane/src/registration.rs:103-147 | a reconciliation leaves a VM with the right route if and only if it was right before, or the VM is on the host and was running, or was stopped or failed and is reported |
| Heartbeats.BeatAllRepairsIff | crates/control-plane/src/registration.rs:103-147 | the same for the loop over any list of distinct VMs |
| Heartbeats.ErrorMarkIsStale | crates/host-agent/src/reconcile.rs:59-64 | the agent's own error mark leaves the VM's route pointing at it |
| Heartbeats.StaleRouteSurvives | crates/control-plane/src/registration.rs:111-145 | and no run of heartbeats that do not report the VM ever repairs that route |
| RouterSync.ArrayRefinesMapInEveryRun | crates/router-sync/src/lib.rs:68-120 | over every run of client calls and whatever the server answers, the id-keyed array means the map the calls ask for, and ids stay unique |
| RouterSync.CallRefines | crates/router-sync/src/lib.rs:68-120 | each call on the array is map update, map removal or replacement |
| RouterSync.UpsertRefines | crates/router-sync/src/lib.rs:105-120 | upsert is map update in all three cases: replaced, 404 then append, 400 then delete and append |
| RouterSync.RemoveRefines | crates/router-sync/src/lib.rs:74-81 | delete is map removal, and nothing for an absent id |
| RouterSync.RebuildIsReplacement | crates/router-sync/src/lib.rs:90-101 | a rebuild makes the array mean exactly the map of the entries |
| RouterSync.IdsCompareAsNames | crates/router-sync/src/lib.rs:103-106 | two route ids are equal exactly when the two names are |
| RouterSync.CaddyApi.UpsertRoute | crates/router-sync/src/lib.rs:105-120 | after the call the instance's map is updated at this name and at no other, and the other instances are unchanged |
| RouterSync.CaddyApi.PutOrPost | crates/router-sync/src/lib.rs:105-120 | the requests sent for each answer of the server compute the specified array |
| RouterSync.CaddyApi.DeleteRoute | crates/router-sync/src/lib.rs:74-81 | after the call the instance's map has lost exactly this name |
| RouterSync.CaddyApi.RebuildAllRoutes | crates/router-sync/src/lib.rs:90-101 | after the call the instance's map is the entries' and the other instances are unchanged |
| RouterSync.CaddyApi.SetVmRoute | crates/router-sync/src/lib.rs:68-71 | routes the name to ip and port |
| RouterSync.CaddyApi.SetStoppedRoute | crates/router-sync/src/lib.rs:84-87 | routes the name to the stopped page |
| Rebuild.RebuildCaddyRoutes | crates/control-plane/src/main.rs:317-382 | from any starting routes the rebuild establishes the agreement that the operations then keep: every VM is routed at its own instance, to its address and the low sixteen bits of its port if it is running and to the stopped page if not, and there is no other route |
| Rebuild.ListsArePartition | crates/control-plane/src/main.rs:341-363 | each VM is once in the list of its own instance, in table order, and in no other list |
| Rebuild.GroupByClient | crates/control-plane/src/main.rs:338-372 | every configured instance, shared base URLs included, gets the list of its own VMs, empty if it has none |
| Rebuild.SendLists | crates/control-plane/src/main.rs:374-381 | sending the lists in any order leaves every instance with its own |
| Rebuild.RebuiltAgrees | crates/control-plane/src/main.rs:317-382 | tables that are the maps of the partition agree with the VM table |
| Regions.InstanceOfVm | crates/control-plane/src/caddy_router.rs:24-39 | a VM belongs to the instance configured for the region its host is in, and to the default when its host is unset, unknown or in no configured region |
| AgentReconcile.TwoRoundsSettle | crates/host-agent/src/reconcile.rs:36-115 | with processes and cgroups frozen and no unassigned VM to claim, two rounds with their Started events handled reach a fixed point: no VM of the host in transition, every running VM with a live recorded pid, no stopped or failed VM with a live process, nothing announced, and the monitored set equal to the running set |
| AgentReconcile.TwoRoundsSettleIff | crates/host-agent/src/reconcile.rs:36-152 | from any table two rounds reach such a fixed point if and only if one round is enough for every row that the first of them claims |
| AgentReconcile.OneRoundSettlesIff | crates/host-agent/src/reconcile.rs:36-152 | one round settles the host if and only if one round is enough for each of its rows and every row it claims is settled already |
| AgentReconcile.OneRoundRowIff | crates/host-agent/src/reconcile.rs:36-115 | when one round is enough for a row: a row in transition or running with a dead process has no live cgroup process, and a running row without pid whose cgroup names a process has a live one |
| AgentReconcile.ThreeRoundsReachFixedPoint | crates/host-agent/src/reconcile.rs:36-152 | from any table three rounds reach a fixed point, at which nothing is announced and the monitored set is the running set |
| AgentReconcile.FixedPointsAreSettled | crates/host-agent/src/reconcile.rs:36-152 | the fixed points of a round are exactly the settled tables with nothing left to claim |
| AgentReconcile.OneRoundIsNotEnough | crates/host-agent/src/reconcile.rs:93-115 | a table that fails that condition: a failed start's process is found only by the next round |
| AgentReconcile.TwoRoundsAreNotEnoughAfterClaim | crates/host-agent/src/reconcile.rs:136-152 | a claimed row that fails it and needs the third round |
| AgentReconcile.VmManager.ReconcileOnce | crates/host-agent/src/reconcile.rs:16-156 | the passes over one stale snapshot together do one round, said for each status of a row: which process it needs to stay or become 'running', when it fails, which pid it gets, which rows are claimed and which are announced. The sweep removes, of the devices named after slots, exactly those that no row of this host records, whatever the row's status, and no other device |
| AgentReconcile.SweepMeans | crates/host-agent/src/reconcile.rs:118-137 | what the sweep keeps, said of the rows and the device names: every device without the prefix, and, when those with it are named after slots, exactly those that some row of the host records |
| AgentReconcile.VmManager.ResetStuck | crates/host-agent/src/reconcile.rs:36-52 | the first pass repairs exactly the rows in transition |
| AgentReconcile.VmManager.CheckRunning | crates/host-agent/src/reconcile.rs:54-77 | the second pass repairs exactly the running rows |
| AgentReconcile.VmManager.RecoverLive | crates/host-agent/src/reconcile.rs:93-115 | the last pass records the pid of, and announces, exactly the rows at rest with a live process |
| AgentReconcile.VmManager.RebuildMonitored | crates/host-agent/src/reconcile.rs:79-91 | the monitored set is the running VMs of the snapshot whose recorded process lives |
| AgentReconcile.VmManager.Claim | crates/host-agent/src/reconcile.rs:136-152 | exactly the unassigned VMs with an overlay here become this host's |
| AgentReconcile.PassesMakeRound | crates/host-agent/src/reconcile.rs:36-152 | the passes, each over its own statuses of the snapshot, compose to one round |
| Taps.SweepExactIff | crates/host-agent/src/reconcile.rs:117-134 | the sweep leaves exactly the recorded devices, of those with the prefix, if and only if every unrecorded one has a canonical name |
| Taps.SweepOfOwnDevices | crates/host-agent/src/reconcile.rs:117-134 | for devices that the agent itself made the sweep is exact, and other devices are untouched |
| Taps.TrackedDeviceLostIff | crates/host-agent/src/reconcile.rs:126-131 | a recorded device is removed exactly when it is some slot's device and an unrecorded device spells the same slot with a plus sign or leading zeros |
| Taps.SlotOfIff | crates/host-agent/src/reconcile.rs:126-129 | a device name is read as a slot exactly when it is the prefix, an optional plus sign, any zeros and the printed slot, of 32 bits |
| Taps.SlotOfTapName | crates/networking/src/tap.rs:122-124 | reading a printed device name back gives its slot, for every 32-bit slot |
| Taps.CanonicalIff | crates/host-agent/src/reconcile.rs:126-131 | printing and reading undo each other exactly on the names of 32-bit slots |
| Taps.NotAllNamesAreCanonical | crates/host-agent/src/reconcile.rs:126-131 | `fc-tap-07` and `fc-tap-+7` are both read as slot 7 |
| Taps.NetworkManager.AllocateTap | crates/networking/src/tap.rs:55-85 | afterwards the slot has exactly its device fc-tap-slot, a stale one having been replaced, and both ends of it, 172.16.(low byte of the slot).1 and .2, are in the slot's subnet |
| Taps.NetworkManager.ReleaseTap | crates/networking/src/tap.rs:88-91 | exactly the slot's device is gone |
| Taps.NetworkManager.Sweep | crates/host-agent/src/reconcile.rs:117-134 | the loop, whatever the order of the listing, computes the specified device set |
| Decimal.ParsePrint | crates/host-agent/src/reconcile.rs:126-129 | reading a printed number back gives it exactly when it fits 32 bits |
| Decimal.ParsedIff | crates/host-agent/src/reconcile.rs:126-129 | a string is read as a 32-bit number exactly when it writes it with an optional plus sign and leading zeros |
| Scheduler.SelectFromHosts | crates/control-plane/src/scheduler.rs:34-85 | best_fit returns the first feasible host in input order with least free memory, spread the last with most, and there is an error exactly when no host is fresh, large enough and label-matching |
| Scheduler.SortByFree | crates/control-plane/src/scheduler.rs:75-77 | sorts by free memory and keeps the input order of equal hosts |
| Scheduler.SortedHeadIsFirstLeast | crates/control-plane/src/scheduler.rs:75-84 | the head of a stable sort is the first of the least |
| Scheduler.SortedEndIsLastMost | crates/control-plane/src/scheduler.rs:78-84 | the end of a stable sort, which reversing brings to the front, is the last of the most |
| Scheduler.PickHost | crates/control-plane/src/scheduler.rs:18-31 | the choice is over the active hosts of the table: no eligible one has less free memory than the chosen one under best_fit, or more under spread; it fails exactly when none is eligible |
| Scheduler.RegionIsEnforcedIff | crates/control-plane/src/ops.rs:79-90 | the merged labels force every matching host into the asked region exactly when the given requirements are absent or an object |
| Drain.DrainWatcher.DrainTick | crates/control-plane/src/migration.rs:156-212 | a draining host goes offline exactly when all its VMs are stopped, and no other host changes; every VM of a draining host that is not stopped is attempted exactly once, at its own clock readings, aimed at the host with the most free memory of those in its region that are active, fresh and have the vCPUs and the memory for it, else of all such hosts, never its own; its row stays or is on that very host with that host's region, and no other row changes |
| Drain.ChoiceMeans | crates/control-plane/src/migration.rs:175-192 | the choice by label requests is the choice by the columns of the hosts: region first, then anywhere, none only if no host can take the VM |
| Drain.TickMeans | crates/control-plane/src/migration.rs:156-212 | what the turns of a tick amount to, said of the columns of hosts and rows; among it that a row only ever moves to the target of the VM's one attempt |
| Drain.ChooseTarget | crates/control-plane/src/migration.rs:179-192 | the target is the roomiest host of the VM's region that can take it whenever one there can, else the roomiest anywhere, and there is none only if no host can take it; the clock is read at each of the two choices |
| Drain.GoodChoiceMeans | crates/control-plane/src/migration.rs:179-192 | so a target is active, fresh and large enough, and in the VM's region if any such host there exists |
| Drain.RegionRequestIff | crates/control-plane/src/migration.rs:181-184 | asking with the region label finds exactly the hosts of the region |
| Drain.DrainWatcher.DrainHost | crates/control-plane/src/migration.rs:167-177 | one draining host: offline if all its VMs are stopped, otherwise its VMs are drained |
| Drain.DrainWatcher.DrainVm | crates/control-plane/src/migration.rs:179-208 | one VM: one attempt, with a good choice, after which its row is in place or records the target and the target's region |
| Drain.TickStep | crates/control-plane/src/migration.rs:167-209 | draining one host after another composes: hosts that go offline and VMs that move change no later choice |
| Addressing.NextFreeSlot | crates/control-plane/src/scheduler.rs:190-206 | returns the least unused slot, at most one more than the number of used addresses; it panics exactly when all 65534 are used |
| Addressing.SlotWithinCount | crates/control-plane/src/scheduler.rs:190-206 | the pigeonhole bound |
| Addressing.UsedSlotOfGuestIp | crates/control-plane/src/scheduler.rs:191-199 | the third field of a written address is read back as its slot |
| Addressing.GuestIpIsWrittenIff | crates/networking/src/ip.rs:11-14 | the agent's guest address of a slot is the one that creation wrote exactly when the slot fits a byte |
| Addressing.SubnetsDisjointIff | crates/networking/src/ip.rs:24-27 | two slots have disjoint /30 subnets exactly when they differ in the low byte |
| Addressing.SlotsDistinctInEveryRun | crates/control-plane/src/ops.rs:100-102 | over every run of creations and deletions the VMs of a host keep distinct addresses |
| Addressing.LeastFreeFitsByte | crates/networking/src/ip.rs:24-27 | with at most 254 VMs on the host the chosen slot fits a byte |
| Addressing.ByteSlotsInEveryRun | crates/networking/src/ip.rs:24-27 | so over every run that creates only on hosts with room all slots fit a byte |
| Addressing.SubnetsDisjointInEveryRun | crates/networking/src/ip.rs:5-27 | and every two VMs of a host have disjoint subnets, derived from the very addresses that were written |
| Names.SlugIsNormal | crates/control-plane/src/subdomain.rs:35-44 | a slug has only lowercase letters, digits and single inner hyphens |
| Names.SlugFixesNormalForms | crates/control-plane/src/subdomain.rs:35-44 | slugging fixes exactly the normal forms |
| Names.SlugIdempotent | crates/control-plane/src/subdomain.rs:35-44 | slugging twice is slugging once |
| Names.SlugAcross | crates/control-plane/src/subdomain.rs:35-44 | the slug across any character that is neither letter nor digit is the slugs of the two sides with one hyphen between them, or the one of them that is not empty |
| Names.SlugOfWord | crates/control-plane/src/subdomain.rs:35-44 | a lowercase word of letters and digits is its own slug; with the law for separators this gives the slug of every lowercased name |
| Names.LowerAllOfAscii | crates/control-plane/src/subdomain.rs:36-36 | an ASCII name is lowercased letter by letter |
| Names.SlugOfExample | crates/control-plane/src/subdomain.rs:55-58 | the slug of 'My Cool VM!' is my-cool-vm |
| Names.Generate | crates/control-plane/src/subdomain.rs:4-20 | returns an unused name: the slug, or the slug with the first free of twenty suffixes; fails exactly when the slug and all twenty are taken |
| Names.FirstFreeMeans | crates/control-plane/src/subdomain.rs:11-17 | a suffixed name is the slug, a hyphen and a suffix, and the slug and every such name tried before are held by some VM |
| Names.CandidateNormalIff | crates/control-plane/src/subdomain.rs:30-33 | a suffixed name is in normal form exactly when the slug is not empty |
| Names.GeneratedNamesAreNeverRenamed | crates/db/src/lib.rs:1144-1150 | no username change renames a VM whose subdomain was generated |
| Usernames.UpdateUsername | crates/db/src/lib.rs:1122-1167 | the transaction renames each name front.old of the account to front.new, leaves every other row, and lists each renamed VM once with both names, or rolls back; unless one username is the other behind a dot it fails exactly when another account has the new username or a VM holds one of the new names |
| Usernames.RenamedMeans | crates/db/src/lib.rs:1140-1164 | stripping the suffix and appending the new one sends exactly the names front.old of the account to front.new |
| Usernames.ClashMeans | crates/db/src/lib.rs:1150-1164 | for separate usernames a new name clashes with one that stays exactly if some VM holds it |
| Usernames.RenameRows | crates/db/src/lib.rs:1140-1164 | the loop computes the renamed table and list, and stops exactly at a violated unique constraint |
| Usernames.RenamedUniqueIff | crates/db/migrations/0001_init.sql:22 | the renamed names are unique exactly when no new name clashes with a kept one |
| Usernames.ApartIffSeparate | crates/db/src/lib.rs:1144-1150 | distinct names stay distinct and no new name is one of the replaced old names if and only if neither username is the other one behind a dot; usernames without dots never are |
| Usernames.NewNameInjective | crates/db/src/lib.rs:1144-1148 | distinct names ending in the old username get distinct new names |
| Usernames.NewNameAvoidsOld | crates/db/src/lib.rs:1144-1148 | for such usernames no new name equals any name that is being replaced |
| Usernames.DottedUsernamesCollide | crates/db/src/lib.rs:1144-1148 | a change from `x.y` to `y` that turns one old name into another |
| Usernames.ValidUsernameHasNoDots | crates/auth/src/lib.rs:10-24 | the validated usernames have no dots |
| Watcher.OneLoopEachInEveryRun | crates/control-plane/src/events.rs:42-92 | in every interleaving of calls and loop exits there is at most one live loop per host, live exactly while the host is in the set, and its k-th pause is min(2^k, 30) seconds |
| Watcher.RegistrationHoldsIff | crates/control-plane/src/events.rs:42-92 | after a call the host stays watched in every run in which none of its loops finds it gone from the table, if and only if no loop of the host was leaving at the time of the call |
| Watcher.RegistrationDuringLeavingIsLost | crates/control-plane/src/events.rs:86-90 | the failing case: a host that registers again between its loop's last look at the table and the loop's exit is not watched afterwards |
| Watcher.RegisteredAddressIff | crates/control-plane/src/events.rs:42-60 | after a call the host is served by a loop that connects to the address of the call, in every run, if and only if it was not watched before or was served at this address already |
| Watcher.ServedAtOneAddress | crates/control-plane/src/events.rs:42-60 | a watched host is served at one address only |
| Watcher.PauseIsOneIff | crates/control-plane/src/events.rs:72-84 | of a loop's pauses exactly the first is one second |
| Watcher.WatchLoop | crates/control-plane/src/events.rs:72-91 | one loop: the first pause is one second, each next one twice the one before but at most thirty, never reset, and it ends exactly when the host is gone from the table |
| Watcher.PausesSettle | crates/control-plane/src/events.rs:83-84 | from the sixth on every pause is thirty seconds |
| EventLog.WalkYieldsEverythingOnce | crates/db/src/lib.rs:1420-1456 | walking the pages with `before` set to the last id of each page ends and yields every event present at the first read exactly once, newest first, for any asked page size and any events appended in between |
| EventLog.PageThenRest | crates/db/src/lib.rs:1426-1436 | a page and what lies behind its last row make up everything found |
| EventLog.NewestIsExact | crates/db/src/lib.rs:1427-1429 | the query selects exactly the VM's rows before the cursor, newest first |
| EventLog.SeenFromStart | crates/db/src/lib.rs:1427-1436 | below a cursor of the first read nothing is ever added |
| EventLog.GrownFromFirst | crates/db/src/lib.rs:401-417 | when the log grows at its end from each read to the next, it has at every read grown from what it was at the first |
| EventLog.VmEvents.LogEvent | crates/db/src/lib.rs:401-417 | an insertion grows the log at its end, with a larger id than every row before |
| EventLog.VmEvents.ListVmEvents | crates/api/src/lib.rs:640-641 | the page holds the VM's rows before the cursor in descending id order, at most the requested number clamped to 1..100; a row it leaves out is older than all it shows, and then the page is full |
| Metrics.RingsHoldTheLastSamples | crates/host-agent/src/metrics.rs:42-47 | after any pushes and evictions each ring holds exactly the last samples of its VM since it was last inactive, as many as fit, in order |
| Metrics.ReaderSeesTheLastSamples | crates/control-plane/src/metrics.rs:125-136 | a reader asking for n samples gets the last of that history, up to the capacity |
| Metrics.MetricsStore.Push | crates/control-plane/src/metrics.rs:149-154 | one sample more, the oldest dropped when the ring is full |
| Metrics.MetricsStore.GetSamples | crates/host-agent/src/metrics.rs:62-73 | the last min(limit, length) samples, all for 0, none for an unknown VM |
| Metrics.MetricsStore.Evict | crates/control-plane/src/metrics.rs:164-167 | exactly the rings of active VMs stay |
| HumanBytes.Scale | services/cmd/spwn/cp.go:143-147 | for every 64-bit size of at least 1024 the loop ends with a valid unit index, div = 1024^(exp+1) without overflow, and div <= n < 1024*div |
| HumanBytes.Describe | services/cmd/spwn/cp.go:138-149 | sizes below 1024, negative ones included, are printed plainly; others get the letter of their unit and the exact quotient, in [1, 1024), that is then rounded to one decimal |
| HumanBytes.UnitIsUnique | services/cmd/spwn/cp.go:143-147 | no other unit has a scaled value in [1, 1024) |
| Fleet.Database.InsertVm | crates/db/src/lib.rs:171-203 | a row is inserted stopped, private, and without host, process and device, unless its id or subdomain is taken |
| Fleet.Database.SetVmStatus | crates/db/src/lib.rs:333-340 | exactly the status of exactly this row |
| Fleet.Database.SetVmPid | crates/db/src/lib.rs:363-370 | exactly the pid of exactly this row |
| Fleet.Database.SetVmHost | crates/db/src/lib.rs:324-331 | exactly the host of exactly this row |
| Fleet.Database.SetVmRegion | crates/db/src/lib.rs:575-582 | exactly the region of exactly this row |
| Fleet.Database.RenameVm | crates/db/src/lib.rs:1458-1471 | exactly the subdomain of exactly this row, refused when another row holds the name |
| Fleet.Database.UpdateVmPort | crates/db/src/lib.rs:1473-1480 | exactly the port of exactly this row |
| Fleet.Database.SetVmPublic | crates/db/src/lib.rs:584-591 | exactly the visibility of exactly this row |
| Fleet.Database.DeleteVm | crates/db/src/lib.rs:382-388 | exactly this row is gone |
| Fleet.Database.UpdateHostHeartbeat | crates/db/src/lib.rs:737-759 | load and time are written; a draining host stays draining, any other becomes active, an offline one included; the other columns and hosts stay, and so does the set of draining hosts |
| Fleet.Database.SetHostStatus | crates/db/src/lib.rs:802-809 | exactly the status of exactly this host |
| Fleet.Database.ListActiveHosts | crates/db/src/lib.rs:811-820 | all active hosts and no other |

## Left out

- Interleavings inside one operation: creation, deletion, patches, username changes, events and
  heartbeats are each one step of the agreement runs. Only starts are taken apart into their transactions.
- Failures of Caddy calls, and of database statements other than a violated unique constraint, a
  conflicting commit and a sum that does not fit its column type.
- The transfer of a migration: it leaves any status, process and device in the VM's row; the model has the
  choice of its target, and the host and region it records if it completes.
- Resize, clone, snapshot and restore: they write rows without a quota check or without a host. `Admission`
  lets idle VMs be resized while no start of theirs is in flight.
- Admission.QuotaHoldsInEveryRun: rows whose size, added to their account's full limit, leaves the integer
  types are kept out of the runs; `Quota.CheckExact` says exactly what the check does with them. The limits
  of an account do not change during a run, sizes are not negative, and the unchecked writes of 'running' to
  a row that holds no reservation are the subject of `LateWrites` instead.
- Operations.ControlPlaneRunsAgree: username changes count as steps unless one username is the other behind
  a dot (`Usernames.ApartIffSeparate`), which validation rules out for every name it has accepted.
- Taps.NetworkManager.AllocateTap: the commands that make the device are not modelled, only their result.
- Names.Generate: lowercasing of one character is any function to strings that treats ASCII as usual; lowercasing that depends on the neighbouring characters is not modelled.
- Metrics.MetricsStore.Push: samples carry a VM and a time only, and the Prometheus gauges are left out.
- HumanBytes.Describe: the quotient is exact; its representation as a float and its rounding to one decimal are left out.
- Event logging, disk usage, share tokens and the other columns that no property here depends on.
- The image lookup and the minimum of vCPUs appear in creation only as reasons to refuse.
- Overflow in the subtraction of used from total resources of a host.
- Reading of `/proc` and of cgroup files: their content is the input `Env` of the agent's reconciliation, frozen during a round.
- Transport, TLS, authentication, sessions, consoles, the user interfaces and generated code.

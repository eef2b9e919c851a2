# Verified model of the game-server orchestrator

The orchestrator runs a fleet of game servers in containers behind one UDP proxy. This project
models its core in Dafny and proves what it is built to keep.

- **Proxy.** A packet that opens a flow is given to the router, which stamps it with the mark of a
  backend; the kernel later looks the mark up in its `@pool` map and opens a conntrack flow.
  Backends come and go under `opMu`, in several sub-steps of router and netlink calls, while packets
  keep arriving. `RouterState.dfy` is the routing state as a value, `Router.dfy` and `Proxy.dfy` the
  objects that update it in place, `ProxyMachine.dfy` the machine that interleaves every critical
  section, netlink call and event, and `ProxyTheorems.dfy` what all its runs keep.
- **Workers.** One controller per server reads its spec and drives its container:
  `WorkerState.dfy`, `Worker.dfy`, `WorkerTheorems.dfy`. `CallProtocol.dfy` states the order in which
  a worker may call the proxy and docker, `Isolation.dfy` proves that this order is enough for a
  client never to be left on a container other than the one it was connected to, `Necessity.dfy` that
  none of its conditions can be left out, `WorkerTheorems.dfy` that every worker obeys it,
  `WorkerEffects.dfy` what its reconciles come to outside it, and `Composition.dfy` puts any succession of workers next to the proxy.
- **Manager.** The discovery loop, the worker goroutines and the one-slot channels between them:
  `Manager.dfy`, with runs that show its exceptions in `Waiting.dfy`. `FleetRun.dfy` runs the manager
  and the workers' reconciles together.
- **Plugins.** Dependency resolution (`Resolve.dfy`), the glob compiler (`Glob.dfy`, and `GlobBytes.dfy`
  for globs outside ASCII) and the deleting walk (`Ignore.dfy`).
- **Download cache.** `CacheState.dfy`, `Cache.dfy`, `CacheTheorems.dfy`.
- **Database.** The environment overlay (`Overlay.dfy`); tables, constraints, transactions and API
  requests (`TableState.dfy`, `Store.dfy`, `StoreTheorems.dfy`, and `RequestEffects.dfy` for what each
  request does).

Objects that the program updates in place are classes whose methods are proved equal to functions on
their state; the theorems are about those functions. Outcomes of docker, netlink, SQL, HTTP and file
operations, clock readings and map iteration orders are parameters or arbitrary choices, so a theorem
holds for all of them. Fields and variables called history in the comments (`given`, `stale`,
`orphaned`, `stamps`, `during`, `confirmedAt`, `promised`, `tried`, `stopsAt` and the like) only record
what happened.

What is proved about marks, the kernel map and isolation assumes fewer than 2^32 adds in all, the range
in which marks are usable (`MarksUsableExactly`). `RetiredForGood` and `OrphansDropped` assume fewer than
2^64; `SwitchingTakesTtl` and fairness need no bound on adds.

Check with `dafny verify dfyconfig.toml`.

## What the code does not keep

- A rebind whose `AddBackend` fails marks the worker crashed but leaves its instance set and its
  container running (`orchestration/fleet/worker.go:312-315`). `ReconcileSettles` shows this is the
  only case, `RebindCanFail` that it happens, `LeakedUntilBroughtUp` how long it lasts.
- `Unmanage` takes no `opMu` and deletes no element (`orchestration/proxy/proxy.go:239-242`).
  `UnmanageExact` gives the condition under which that is harmless, at any moment. `ReapFindsEmptyPool`
  says when a reap (`orchestration/fleet/worker.go:153-158`) finds its pool empty: when no other server
  is registered on the port or in the middle of registering there. `ReusedPortDiscardsLiveBackend`,
  `UnmanageMidAddDiscards` and `UnmanageBreaksIsolation` are runs in which it does not.
- A deleted server's address is free for a new server before its old worker has reaped
  (`orchestration/api/servers.go:115-122`, `orchestration/api/servers.go:301-320`):
  `OverlappingWorkersLeak`.
- A lost metadata write can leave the old validators beside a new body, and a stuck sidecar can outlive
  its blob (`orchestration/internal/install/cache.go:172-224`). `StepAgreesExactly` says exactly when
  that happens, `LostMetadataWriteMisleads` and `StrandedSidecarMisleads` what follows.
- Nothing stops two global rows of one key with different scope names, and the API accepts a scope
  name for global variables (`orchestration/api/catalog.go:165-187`); `OrderIrrelevantExactly` says
  when that matters, `AmbiguityReachable` that it happens.
- A port outside 0..65535 passes the tables and is truncated for the proxy
  (`orchestration/database/resolve.go:31-33`): `TruncationExact`, `OutOfRangeCollides`,
  `LargePortsCollide`.
- A glob with a character outside ASCII is quoted byte by byte (`orchestration/plugin/apply.go:244-258`)
  and loses its meaning: `BytewiseExactly`. The other glob theorems are about the characters the
  compiler reads.
- The comment on `route` says that no session is forgotten while its client's flow lives
  (`orchestration/proxy/router.go:135-137`). `lastSeen` is refreshed only by packets that open a flow:
  `SweepForgetsExactly`, `SessionForgottenBeforeFlow`.
- A wake-up used up by a spec read that the database refuses, and a row created again while its old
  worker is exiting, are left to a ticker: `RefusedReadForgets`, `RecreatedRowWaits`.
- The comment on `RemoveBackendMaybeUnbind` names deletion as its usual use
  (`orchestration/proxy/proxy.go:201-203`); the worker calls it only from a rebind, and is modelled so.

## Model

| member | source | states |
|---|---|---|
| `Isolation.InstanceIsolation` | orchestration/proxy/proxy.go:151-156 | For every interleaving of packets, sweeps, kernel executions, other workers, outside Unmanages and netlink calls: if the calls made for an address keep the order flush, start, add / remove, flush, stop, its kernel deletes succeed and no outside Unmanage hits a pool that holds it, then every flow to the address was opened while the container now running there was running, and the router holds the address once, on its port, exactly while it serves |
| `Isolation.IsolationStep` | orchestration/proxy/conntrack.go:15-43 | Every single step of anyone keeps that invariant: after a successful flush no flow to the address exists, and none can appear before the backend is added again |
| `Isolation.PoolEmptyExactly` | orchestration/proxy/proxy.go:43-50 | At every moment, in the middle of any operation too, a pool is empty if and only if no backend is registered on its port or being registered there |
| `Isolation.NoElement` | orchestration/proxy/proxy.go:183-191 | While the router does not hold an address, no kernel element points at it, except the one a running removal is about to delete |
| `Necessity.RestartWithoutFlushLeaks` | orchestration/proxy/proxy.go:156-156 | The flush is needed: a run in which no delete fails and only the flush before a restart is missing leaves a flow of the old container on the new one |
| `Necessity.ReusedPortDiscardsLiveBackend` | orchestration/fleet/worker.go:153-158 | A run in which a reap unmanages a port that a new server has taken over: every worker kept to the order and no delete failed, yet the new server, which thinks it serves, is held nowhere, its clients are no longer routed, and its element stays in the kernel |
| `Necessity.UnmanageMidAddDiscards` | orchestration/proxy/proxy.go:157-181 | No server has to be running on the port: a run in which the reap comes between the sub-steps of the new server's AddBackend, which then succeeds; the new server is held nowhere and its element stays |
| `Necessity.UnmanageBreaksIsolation` | orchestration/proxy/proxy.go:239-242 | The first of these runs continued: a packet stamped before the Unmanage opens a flow between a later flush and restart, so the hypothesis on outside Unmanages is needed |
| `Necessity.OverlappingWorkersLeak` | orchestration/api/servers.go:115-122 | A run in which an address is given to a new server before the old one is reaped: both workers keep to the order, no delete fails, and isolation breaks |
| `Necessity.SessionForgottenBeforeFlow` | orchestration/proxy/router.go:135-137 | A run in which a client's session is swept while its flow to a running container is still there |
| `ProxyTheorems.StampNeverMisdirected` | orchestration/proxy/router.go:124-164 | With fewer than 2^32 adds, the mark stamped on any packet, looked up in the kernel map at any later time, gives the address `route` chose or nothing, even when element deletes and adds fail and live pools are unmanaged in between |
| `ProxyTheorems.MarksUsableExactly` | orchestration/proxy/router.go:59-68 | The marks of the first n generations are distinct and never 0 if and only if n < 2^32 |
| `ProxyTheorems.QuiescentAgreement` | orchestration/proxy/proxy.go:157-233 | Whenever no backend operation is between two of its sub-steps, the kernel map is the pooled backends plus the elements whose delete failed and those whose pool an outside Unmanage discarded; it agrees with the router if and only if there are none of either kind |
| `ProxyTheorems.AgreementWhenDeletesSucceed` | orchestration/proxy/proxy.go:175-178 | If no element delete fails and outside Unmanages hit only empty pools, the kernel map is exactly mark(gen) -> ip over all pooled backends; adds may still fail, because they roll back |
| `ProxyTheorems.UnbindDiscardsNobody` | orchestration/proxy/proxy.go:198-216 | The unmanage inside RemoveBackendMaybeUnbind always finds its pool still empty, although the router mutex was released in between |
| `ProxyTheorems.UnmanageExact` | orchestration/proxy/proxy.go:235-242 | An outside Unmanage takes no opMu and deletes no element: at every moment, in the middle of any backend operation too, the operation under way still ends in agreement if and only if the pool was absent or empty, or held only the backend that a failed AddBackend is about to take out again |
| `ProxyTheorems.ManagedExactly` | orchestration/proxy/router.go:89-122 | Over all runs a port is managed exactly from an add on it until it is itself released: nothing that happens to other ports, and no removal that empties its pool, changes that; its packets pass unmodified exactly when it is not managed |
| `ProxyTheorems.OnlyItsFlushTakes` | orchestration/proxy/conntrack.go:30-41 | A flow leaves the table only by expiring, or by the flush of the very address it replies from, if it is a udp flow whose delete succeeds |
| `ProxyTheorems.SweepForgetsExactly` | orchestration/proxy/router.go:166-177 | A sweep forgets a client if and only if its latest dnat verdict is older than the TTL, whatever conntrack flows it has |
| `ProxyTheorems.RetiredForGood` | orchestration/proxy/router.go:68-113 | A generation that has left its pool is in no pool at any later moment of any run of fewer than 2^64 adds |
| `ProxyTheorems.OrphansDropped` | orchestration/proxy/router.go:147-154 | A client whose backend left its pool at any earlier moment is dropped on every managed port for as long as its session lasts |
| `ProxyTheorems.SwitchingTakesTtl` | orchestration/proxy/router.go:132-177 | Two dnat verdicts for one client with different marks are more than the session TTL apart, in every run, with no bound on adds |
| `ProxyTheorems.PicksCycle` | orchestration/proxy/router.go:160-163 | While a pool keeps its backends, the j-th new client gets the j-th backend of the cycle from the cursor, whatever happens in between |
| `ProxyTheorems.CycleCount` | orchestration/proxy/router.go:160-161 | How often a backend occurs in such a cycle, as a difference of two quotients |
| `ProxyTheorems.RoundRobinFair` | orchestration/proxy/router.go:142-163 | Across any run segment that leaves a pool's backends alone, k new clients give each of n backends floor(k/n) or ceil(k/n), whatever returning clients, drops, sweeps and other ports do meanwhile |
| `ProxyMachine.InvRun` | orchestration/proxy/proxy.go:43-50 | Over all runs: generations are unique and owned by one address; at each sub-step the kernel elements are those the operation under way expects, plus failed deletes, plus elements orphaned by an outside Unmanage; sessions and stamps name the address their generation was given to |
| `RouterState.AddBackendMembership` | orchestration/proxy/router.go:68-87 | An add makes (port, ip, fresh generation) the only holding of ip on that port, reports the replaced generation if there was one, and leaves other ports, the cursor and the places of the backends already there alone |
| `RouterState.RemoveBackendMembership` | orchestration/proxy/router.go:97-113 | A removal takes exactly (port, ip) out, reports what it took and whether it left the pool empty, keeps the pool even then, and leaves other ports and the cursor alone |
| `RouterState.UnmanageMembership` | orchestration/proxy/router.go:118-122 | The port has no pool any more; every other port keeps the pool it has, an empty one too, and stays without one if it has none |
| `RouterState.RouteVerdict` | orchestration/proxy/router.go:138-164 | Which packets are accepted, forwarded or dropped, in terms of what the pool holds: a returning client exactly when that very instance is still there; a drop changes nothing; a forwarded packet's mark, session and time |
| `Router.Router.Find` | orchestration/proxy/router.go:179-186 | The loop finds the first backend at the address |
| `Router.Router.AddBackend` | orchestration/proxy/router.go:68-87 | The in-place update is the specified one, results included |
| `Router.Router.RemoveBackend` | orchestration/proxy/router.go:97-113 | The in-place update is the specified one, results included |
| `Router.Router.Unmanage` | orchestration/proxy/router.go:118-122 | The in-place update is the specified one |
| `Router.Router.Route` | orchestration/proxy/router.go:138-164 | The in-place update and the verdict are the specified ones |
| `Router.Router.Sweep` | orchestration/proxy/router.go:169-177 | Deleting in map order while iterating leaves exactly the sessions not older than the TTL |
| `Proxy.Proxy.AddBackend` | orchestration/proxy/proxy.go:157-181 | The method, run without a packet in between, is the machine's sub-steps: replaced element deleted first, failed install rolled back |
| `Proxy.Proxy.RemoveBackendLocked` | orchestration/proxy/proxy.go:218-233 | The shared body is the machine's removal up to the point where the lock would be released |
| `Proxy.Proxy.RemoveBackendDoNotUnbind` | orchestration/proxy/proxy.go:191-196 | The method is the machine's removal that keeps an emptied pool |
| `Proxy.Proxy.RemoveBackendMaybeUnbind` | orchestration/proxy/proxy.go:204-216 | The method is the machine's removal that unmanages an emptied pool |
| `Proxy.Proxy.Unmanage` | orchestration/proxy/proxy.go:239-242 | Discards the pool and leaves the kernel map alone |
| `Proxy.Proxy.FlushConntrack` | orchestration/proxy/conntrack.go:15-43 | After a dump that works exactly the udp flows replying from the address that could be deleted are gone; after a failed dump nothing is |
| `Proxy.FlushIsItsSteps` | orchestration/proxy/conntrack.go:25-42 | Visiting the dumped flows one step at a time, in any order, leaves the same flows |
| `Proxy.FlushTakesExactly` | orchestration/proxy/conntrack.go:25-42 | A flow is left by an uninterrupted flush exactly if it was there and is not udp, replies from another address, or could not be deleted |
| `Proxy.RemovalUnbindsDrained` | orchestration/proxy/proxy.go:183-216 | RemoveBackendDoNotUnbind leaves the port as managed as it was; RemoveBackendMaybeUnbind leaves it managed exactly if another backend is there |
| `CallProtocol.BadIsForever` | orchestration/proxy/proxy.go:156-156 | A call out of order is never forgiven, so a log in order has only prefixes in order |
| `WorkerTheorems.AlwaysSettled` | orchestration/fleet/worker.go:66-146 | At every return to the select: the phase is not starting or stopping, running implies a held instance, and the calls made so far were in protocol order with the backend registered exactly while running |
| `WorkerTheorems.ReconcileSettles` | orchestration/fleet/worker.go:90-146 | One reconcile keeps that; it keeps "instance held iff running" if and only if it is not a rebind whose AddBackend fails; desired stopped ends in stopped; a deleted row ends with no instance |
| `WorkerTheorems.AlwaysTight` | orchestration/fleet/worker.go:66-87 | Over a worker's whole life, with no failed rebind, an instance is held exactly while running, and none after the final bring-down |
| `WorkerTheorems.LeakedUntilBroughtUp` | orchestration/fleet/worker.go:312-315 | After a failed rebind the container stays up and no call is made for it through any number of reconciles that want the server stopped or deleted, and through shutdown |
| `WorkerTheorems.RebindCanFail` | orchestration/fleet/worker.go:312-315 | A worker gets into that state: one bring-up and one port change whose AddBackend fails |
| `WorkerTheorems.LimitsDecide` | orchestration/fleet/worker.go:325-352 | A healthy server goes down if and only if its stop limit is reached and the stop can be persisted, or else its restart limit is; the stop is persisted before the first call of the bring-down; a restart wakes the worker; otherwise nothing changes |
| `WorkerTheorems.RestartComesBack` | orchestration/fleet/worker.go:343-351 | The first readable wake-up after a restart brings the server up with a fresh clock, so it stays within its limits until they are reached anew |
| `WorkerTheorems.StopStays` | orchestration/fleet/worker.go:330-341 | Once the persisted stop is read back, the server stays down and no call is made for it |
| `WorkerTheorems.ClockStartsAtBringUp` | orchestration/fleet/worker.go:219-226 | A worker's clock starts when a bring-up succeeds and runs as long as that instance does, through rebinds too |
| `WorkerTheorems.UnmanagesOnlyItsOwn` | orchestration/fleet/worker.go:149-160 | A worker unmanages a port, and cancels itself, only when its row is gone: at most the port its own backend was last registered on as a standalone server, after bringing it down |
| `WorkerTheorems.BringUpSettles` | orchestration/fleet/worker.go:164-231 | A bring-up ends running, with the right instance, port and address, exactly when its four calls succeed, and crashed otherwise with nothing registered |
| `WorkerTheorems.RebindSettles` | orchestration/fleet/worker.go:304-321 | A rebind moves the registration and keeps the instance; it ends running exactly when the add succeeds |
| `WorkerTheorems.BringDownSettles` | orchestration/fleet/worker.go:234-248 | A bring-down of a running worker ends stopped with no instance and nothing registered, and is a no-op otherwise |
| `WorkerEffects.NothingLeftUp` | orchestration/fleet/worker.go:252-273 | Folding start and stop calls over the log: over a worker's whole life without a failed rebind, the container that is up is its instance's and there is no other; after the final bring-down none is up |
| `WorkerEffects.ReconcileUp` | orchestration/fleet/worker.go:213-217 | Each reconcile keeps that: every teardown ends in a stop, and so does a bring-up whose backend could not be added |
| `WorkerEffects.WantedRunningComesUp` | orchestration/fleet/worker.go:110-133 | Whatever phase it is in, a worker whose server is wanted running and is not up brings it up unless a backoff is under way, and ends running as wanted, with a fresh clock and count, exactly if its calls succeed |
| `WorkerEffects.PortChangeMoves` | orchestration/fleet/worker.go:118-125 | A healthy server whose port has changed moves there with the same instance, address and clock, exactly if the add succeeds |
| `Composition.WorkersKeepIsolation` | orchestration/fleet/worker.go:162-321 | For any succession of workers at an address, whatever part of their calls has happened in the proxy machine so far, next to anything else, every flow to the address was opened to the container running there, provided its kernel deletes succeed and no outside Unmanage hits its pool |
| `Composition.RouterFollowsWorker` | orchestration/fleet/worker.go:162-321 | Once those calls have completed, the router holds the address exactly as the present worker's fields say: once, on its port, while running, and nowhere otherwise |
| `Composition.LivesEndDown` | orchestration/fleet/manager.go:121-148 | However many workers have come and gone, failed rebinds included, the address is left in a stage from which the next may start |
| `Composition.ReapFindsEmptyPool` | orchestration/fleet/worker.go:149-160 | When a deleted server is reaped, wherever the other workers are in their calls, the pool it unmanages is empty if and only if no other server is registered on that port by then or in the middle of registering there |
| `Composition.StageOfPresent` | orchestration/fleet/worker.go:162-321 | What a worker's calls have come to says where it is: its calls are in order, and once all are made it is on a port exactly while its fields say it runs there |
| `FleetRun.AlwaysOneAtATime` | orchestration/fleet/manager.go:121-148 | Over all runs of the manager and its workers together: the calls made by the workers of one server are those of ended lives, one after another, and then of the present worker |
| `FleetRun.ServerKeepsIsolation` | orchestration/fleet/manager.go:121-148 | So while only the workers of one server call for an address, isolation holds there at every point of the fleet's run, with no assumption on how those workers follow one another |
| `FleetRun.ReturnedHoldsNothing` | orchestration/fleet/manager.go:64-87 | When Run has returned, no worker ever spawned is running, holds an instance or has left a container up, except one with a failed rebind in its life |
| `FleetRun.CancelledAgrees` | orchestration/fleet/worker.go:148-160 | A worker leaves its loop by itself exactly when it has reaped, after a read that found its row gone |
| `FleetRun.RestartIsWoken` | orchestration/fleet/worker.go:346-350 | The worker of a server taken down for a restart has a wake-up in its slot |
| `WorkerTheorems.BackoffDoubles` | orchestration/fleet/worker.go:398-410 | The delay is min(2^n s, 120 s) from the first failure on, is monotone in the number of failures, and its shift never overflows int64 |
| `WorkerEffects.CountIsFailuresInARow` | orchestration/fleet/worker.go:288-298 | Over a worker's whole life the failure count is the number of failures since the last successful bring-up, each of which set one timer |
| `WorkerEffects.CountStep` | orchestration/fleet/worker.go:90-146 | What counts as a failure in one reconcile: a container found dead, a failed bring-up, a failed rebind; and a successful bring-up resets the count |
| `WorkerEffects.HoursAreHours` | orchestration/fleet/worker.go:391-391 | A limit of h hours is h times 3600 seconds, to the nanosecond below |
| `WorkerTheorems.FailureSchedulesRetry` | orchestration/fleet/worker.go:288-298 | Every reconcile that counts a failure leaves a timer set to the end of the backoff it started |
| `WorkerTheorems.RetryWaitsForBackoff` | orchestration/fleet/worker.go:368-373 | While the server is wanted running, no wake-up before the backoff has elapsed makes any call, and the first readable one at or after it does |
| `Worker.Worker.Run` | orchestration/fleet/worker.go:66-87 | The loop is the sequence of reconciles followed by one bring-down |
| `Worker.Worker.Reconcile` | orchestration/fleet/worker.go:90-146 | Field by field the specified reconcile |
| `Worker.Worker.Reap` | orchestration/fleet/worker.go:149-160 | Field by field the specified reap: bring-down, unmanage only for a standalone port, cancel |
| `Worker.Worker.BringUp` | orchestration/fleet/worker.go:164-231 | Field by field the specified bring-up |
| `Worker.Worker.BringDown` | orchestration/fleet/worker.go:234-248 | Field by field the specified bring-down |
| `Worker.Worker.TeardownLive` | orchestration/fleet/worker.go:252-273 | The instance is forgotten first, then remove, flush, stop, whatever they answer |
| `Worker.Worker.MarkCrashed` | orchestration/fleet/worker.go:288-298 | Counts the failure, notes the time, arms one timer |
| `Worker.Worker.Rebind` | orchestration/fleet/worker.go:304-321 | Field by field the specified rebind |
| `Manager.NoLostWakeup` | orchestration/fleet/manager.go:50-119 | In every reachable state, for every live uncancelled worker: the manager's slot, a dispatch in progress, the worker's slot or a read about to start will make it read again, or its latest spec read came after the latest write whose handler has nudged and was answered, unless the database refused that very read |
| `Manager.CreatedRowGetsWorker` | orchestration/fleet/manager.go:96-119 | In every reachable state a row whose creator has nudged has a worker, or a listing that will show it is on its way, or the latest listing failed, or a worker of its name has exited since the latest dispatch looked |
| `Manager.WakeIsKept` | orchestration/fleet/worker.go:58-64 | A wake-up by a timer, a docker event, a dispatch or the worker itself stays in the slot until the worker takes it and reads its spec again |
| `Manager.StopIsHeard` | orchestration/fleet/manager.go:89-94 | Once stopped, the loop and every worker that waits can leave, at any later moment |
| `Manager.ShutdownProgresses` | orchestration/fleet/manager.go:78-80 | A shutdown cannot get stuck: while Run waits, it can return or some worker can take its next step towards its exit |
| `Waiting.RefusedReadForgets` | orchestration/fleet/worker.go:93-101 | The exception for refused reads is needed: a run in which the wake-up for a write is used up and only the resync ticker is left |
| `Waiting.RecreatedRowWaits` | orchestration/fleet/manager.go:104-109 | The exception for exiting workers is needed: a row created again while its old worker is exiting is left to the discovery ticker |
| `Manager.OneControllerPerServer` | orchestration/fleet/manager.go:121-148 | At most one worker per name between spawn and workerExited; the map holds exactly those; the identity check always succeeds |
| `Manager.PredecessorsAreDown` | orchestration/fleet/manager.go:121-148 | A worker's predecessors under the same name have all been through their bring-down |
| `Manager.ReturnMeansAllDown` | orchestration/fleet/manager.go:64-87 | When Run has returned, every worker ever spawned has gone through its bring-down and the map is empty |
| `Manager.SpawnAllExtends` | orchestration/fleet/manager.go:104-109 | One pass over the rows gives every listed name a worker, disturbs no existing one, and keeps one controller per name even for repeated names |
| `Resolve.ResolveOrder` | orchestration/plugin/resolve.go:17-81 | Succeeds if and only if everything reachable from the roots loads and parses and no reachable plugin lies on a cycle; then the result is each reachable plugin once, with its own manifest, after all it requires; an error names a reachable culprit or a real cycle. Terminates for every catalogue, in every map order |
| `Resolve.Closure` | orchestration/plugin/resolve.go:23-41 | The worklist loop records exactly the reachable plugins, or stops at a reachable one that does not load or parse |
| `Resolve.CountEdges` | orchestration/plugin/resolve.go:43-50 | In-degrees count requirements with repetition, and the inverted lists hold each dependent as often as it requires |
| `Resolve.Sort` | orchestration/plugin/resolve.go:52-70 | What is ordered is distinct and has its requirements before it, and each plugin left out still has a requirement left out |
| `Resolve.TrappedCycle` | orchestration/plugin/resolve.go:72-74 | A non-empty set in which everything requires something in the set contains a cycle; the cycle is produced |
| `Resolve.PathGoesBack` | orchestration/plugin/resolve.go:59-70 | Following requirements only ever goes to earlier positions of the order, so a fully ordered graph has no cycle |
| `Resolve.ClosedContains` | orchestration/plugin/resolve.go:23-41 | A set holding the roots and closed under requirements holds everything reachable |
| `Glob.CompilationPreservesMeaning` | orchestration/plugin/apply.go:233-261 | For every glob and every path, the anchored regular expression that is written compiles and matches exactly when the glob does by its direct definition |
| `Glob.ParseBody` | orchestration/plugin/apply.go:243-260 | The written text, read by the operators of RE2, is the intended expression: every character of the glob that is an operator there comes out quoted |
| `Glob.BodyMeans` | orchestration/plugin/apply.go:245-260 | The intended expression followed by any tail matches exactly when a beginning matches the glob and the rest the tail |
| `Glob.TreePatternCoversBelow` | orchestration/plugin/apply.go:238-241 | A trailing `/**` pattern that matches a path matches everything below it |
| `Glob.GlobToRegexp` | orchestration/plugin/apply.go:236-261 | The compile loop writes a text that compiles, by that reading, to an expression with the glob's meaning |
| `GlobBytes.BytewiseExactly` | orchestration/plugin/apply.go:244-258 | Compiling the UTF-8 bytes of a glob one at a time keeps its meaning, over all paths, if and only if the glob is ASCII |
| `GlobBytes.NonAsciiGlobMisses` | orchestration/plugin/apply.go:256-257 | In particular a glob that is any single non-ASCII character does not match that character |
| `GlobBytes.ShortestMatch` | orchestration/plugin/apply.go:245-258 | Every glob body has a match of one character for each item but the stars |
| `GlobBytes.MatchesAreLong` | orchestration/plugin/apply.go:245-258 | And no shorter one |
| `Ignore.Tree.ApplyIgnore` | orchestration/plugin/apply.go:190-223 | An entry is left if and only if neither it nor a non-root directory above it matches a pattern; if a removal fails, nothing that should stay is gone |
| `Ignore.Tree.Walk` | orchestration/plugin/apply.go:202-222 | Deleting while walking, with subtrees skipped and siblings in any order, leaves exactly the filtered subtree |
| `Ignore.IgnoredChildGone` | orchestration/plugin/apply.go:211-218 | Removing a matching child with everything below it is filtering that child's subtree |
| `Ignore.WalkedChildPruned` | orchestration/plugin/apply.go:202-222 | Filtering below a child that does not match is what filtering from the parent does to it |
| `Ignore.PrunedIsTree` | orchestration/plugin/apply.go:202-222 | What is left at every moment is again a tree |
| `Ignore.SlashedRoundTrip` | orchestration/plugin/apply.go:209-209 | The text a path is matched as, split at its slashes, is the path again |
| `CacheTheorems.AnswersAreUpstreams` | orchestration/internal/install/cache.go:76-135 | In any sequential run with restarts, if upstream never reuses a validator for another body and no earlier step spoiled an entry: a 304 or 200 answer is upstream's current body; a hit without the network was confirmed in this process and recorded less than the TTL ago; a stale answer was upstream's at some time (sections 13.1.2, 13.1.3, 13.2.2 and 15.4.5 of RFC 9110) |
| `CacheTheorems.StepAgreesExactly` | orchestration/internal/install/cache.go:172-224 | A fetch keeps every sidecar in agreement with its blob and upstream if and only if it neither leaves an old sidecar beside a different new body (a lost metadata write) nor evicts a blob whose sidecar cannot be removed; every other failed write or removal is harmless |
| `CacheTheorems.AlwaysAgreesExactly` | orchestration/internal/install/cache.go:76-224 | The cache agrees with upstream at every moment of a run if and only if no step of the run spoils an entry in one of these two ways |
| `CacheTheorems.EvictRemoves` | orchestration/internal/install/cache.go:215-223 | Which files an eviction with failing removals leaves: the entries it goes through depend on sizes only |
| `CacheTheorems.EvictsShortestPrefix` | orchestration/internal/install/cache.go:188-224 | Eviction ends within the bound and removes exactly the shortest oldest-first prefix that gets there: keeping the last one removed would exceed it |
| `CacheTheorems.EvictsLeastRecentlyUsed` | orchestration/internal/install/cache.go:84-89 | At the end of any run, what a download evicts was last of use (served without the network, revalidated or stored) no later than anything it keeps |
| `CacheTheorems.ModIsLastUse` | orchestration/internal/install/cache.go:263-266 | Over all runs a blob's modification time is the time of its last use |
| `CacheTheorems.OutcomeExactly` | orchestration/internal/install/cache.go:76-135 | When each answer is given: from the cache exactly for a blob with a sidecar written in this process less than the TTL ago; a network failure is covered exactly by a blob with a sidecar; stale and failed answers change nothing |
| `CacheTheorems.ServedUntilTtl` | orchestration/internal/install/cache.go:80-89 | What upstream has just sent or confirmed is served without the network until the TTL has passed, and no longer |
| `CacheTheorems.NewestSurvives` | orchestration/internal/install/cache.go:215-223 | A strictly newest blob no larger than the bound survives with its metadata |
| `CacheTheorems.EvictOnlyRemoves` | orchestration/internal/install/cache.go:215-223 | Even when removals fail, nothing is added or changed, and no sidecar outlives its blob unless that sidecar could not be removed |
| `CacheTheorems.DownloadSurvives` | orchestration/internal/install/cache.go:172-184 | The path returned by a download that fits holds the downloaded body |
| `CacheTheorems.RestartRevalidates` | orchestration/internal/install/cache.go:47-54 | After a restart nothing is served before upstream has been asked, whatever failed before |
| `CacheTheorems.LostMetadataWriteMisleads` | orchestration/internal/install/cache.go:172-182 | From a cache in agreement, a lost metadata write lets a later 304 vouch for the wrong body |
| `CacheTheorems.StrandedSidecarMisleads` | orchestration/internal/install/cache.go:219-220 | From a cache in agreement, a sidecar that outlives its evicted blob makes a later 304 answer with a missing file |
| `Cache.Cache.List` | orchestration/internal/install/cache.go:198-214 | The listing holds each blob once, oldest first, with the total of their sizes |
| `Cache.Cache.Evict` | orchestration/internal/install/cache.go:188-224 | The decrementing loop is the specified eviction of an oldest-first listing |
| `Cache.Cache.Fetch` | orchestration/internal/install/cache.go:76-135 | The method is the specified fetch, outcome and files |
| `Overlay.ViewsAgree` | orchestration/database/resolve.go:48-110 | With one global row per key: the sorted rows are exactly "server, else cluster, else global" for every key, and collapsing them gives the environment, even if the two queries order ties differently |
| `Overlay.OrderIrrelevantExactly` | orchestration/database/resolve.go:48-71 | The environment is independent of the row order within a scope if and only if rows that tie for a key have equal values |
| `StoreTheorems.AmbiguityReachable` | orchestration/api/catalog.go:165-187 | From empty tables, two requests for one global key under two scope names make the environment of every server depend on the row order |
| `Overlay.ScanIsLookup` | orchestration/database/resolve.go:62-69 | The overwriting scan yields for each key the most specific row |
| `Overlay.ScanKeepsLast` | orchestration/database/resolve.go:92-99 | The scan keeps the last row of each key and nothing else |
| `Overlay.LoadEnv` | orchestration/database/resolve.go:48-71 | The loop builds the values of that scan |
| `Overlay.EffectiveEnv` | orchestration/database/resolve.go:78-110 | The result has one row per key, sorted by key, and exactly the winning rows |
| `Overlay.LessByFirstDifference` | orchestration/database/resolve.go:108-108 | The order of the rows is the byte order of their keys |
| `StoreTheorems.AlwaysConsistent` | orchestration/database/schema.go:246-277 | Over any serial sequence of API requests: no port has two owners across servers and clusters, each server has exactly one of port and cluster, addresses are distinct and in 10..254, each scoped row names an existing owner and a known item |
| `StoreTheorems.RequestKeeps` | orchestration/database/crud.go:49-244 | Each single request keeps all of that |
| `StoreTheorems.CreateSucceedsExactly` | orchestration/api/servers.go:38-71 | A server is created if and only if its name is new and not empty, it is standalone on a port nobody has or a member of an existing cluster, an address is free, and its plugins and configs exist and are listed once |
| `StoreTheorems.CreatedFromScratch` | orchestration/database/crud.go:44-80 | A new server's scope holds exactly what its request gave, its address is the lowest free one, and other servers, the clusters, the catalogues and the plugins, configs and variables of every other scope are as before |
| `RequestEffects.CreatedIsReached` | orchestration/database/resolve.go:28-36 | A new server is reached on the port given, or on its cluster's |
| `RequestEffects.UpdateServerExactly` | orchestration/api/servers.go:80-113 | A server update succeeds if and only if the server exists, a port is given only to a standalone server and is nobody else's, and the desired state is valid or left out |
| `RequestEffects.UpdateServerWrites` | orchestration/api/types.go:133-152 | Afterwards the server has the port given or its old one, the settings given, the desired state given or its old one, and its old address and cluster; nothing else has changed |
| `RequestEffects.SetDesiredWrites` | orchestration/api/servers.go:124-139 | Starting and stopping write that server's desired state and nothing else |
| `RequestEffects.DeleteServerForgets` | orchestration/database/crud.go:196-219 | Deleting a server leaves nothing of it or of its scope, and everything else |
| `RequestEffects.DeleteClusterForgets` | orchestration/database/crud.go:221-244 | Deleting a cluster succeeds if and only if it has no members, and then leaves nothing of it or of its scope, and everything else |
| `RequestEffects.CreateClusterExactly` | orchestration/api/clusters.go:23-50 | A cluster is created if and only if its name is new and not empty, its port is not 0 and nobody's, and its plugins and configs exist and are listed once |
| `RequestEffects.CreateClusterWrites` | orchestration/api/types.go:201-219 | The new cluster has what was given, accepting and round robin where nothing was; its scope holds exactly the overrides given; nothing else has changed |
| `RequestEffects.UpdateClusterExactly` | orchestration/api/types.go:232-244 | A cluster update succeeds if and only if the cluster exists and the port is not 0 and nobody else's; it writes what was given, keeps the rest, and every member is reached on the new port |
| `RequestEffects.GlobalEnvWrites` | orchestration/api/catalog.go:165-205 | Setting or deleting a global variable concerns that key under that scope name and nothing else |
| `RequestEffects.GlobalSetsWrite` | orchestration/database/plugins.go:101-137 | Setting the global plugins succeeds exactly for known plugins listed once, sets exactly those and touches no configs, and the other way round |
| `RequestEffects.CatalogueWrites` | orchestration/database/crud.go:266-281 | Putting an item makes it known; deleting one succeeds if and only if no scope assigns it |
| `RequestEffects.MostSpecificDecides` | orchestration/database/plugins.go:53-68 | The first of server, cluster and global that overrides decides which plugins run, even with none |
| `RequestEffects.CreatedRunsItsOwn` | orchestration/database/plugins.go:53-68 | A server created with a plugin set runs exactly that set, even if empty, in whatever cluster |
| `StoreTheorems.RecreatedInherits` | orchestration/database/plugins.go:53-68 | Delete then re-create under the same name without plugins: the server runs its cluster's set if overridden, else the global one, whatever the old one had |
| `StoreTheorems.FirstFreeIsLowest` | orchestration/api/servers.go:301-320 | The address allocated is the lowest free one, and allocation fails exactly when all are taken |
| `StoreTheorems.SetItemsReplaces` | orchestration/database/plugins.go:118-137 | Setting a scope succeeds exactly for known items without repeats, marks the scope and replaces its rows and no others |
| `StoreTheorems.PortsFollowClusters` | orchestration/database/resolve.go:28-36 | Two servers resolve to the same port if and only if they are members of the same cluster |
| `StoreTheorems.ProxyPortsFollowClusters` | orchestration/database/resolve.go:28-36 | The same of the 16-bit ports given to the proxy, for ports up to 65535 |
| `StoreTheorems.TruncationExact` | orchestration/database/resolve.go:31-33 | No other port in range truncates to the same 16 bits as p, if and only if p is in 0..65535 |
| `StoreTheorems.OutOfRangeCollides` | orchestration/database/resolve.go:31-33 | A standalone server on a port out of range collides at the proxy with a server there is, or with one on a port in range that a single create request adds under any new name while an address is free |
| `StoreTheorems.LargePortsCollide` | orchestration/api/servers.go:38-71 | From empty tables, two create requests on ports 65536 apart give two servers that collide |
| `Store.SetItemsTx` | orchestration/database/plugins.go:118-137 | The statement loop is the specified replacement or aborts |
| `Store.Store.CreateServer` | orchestration/database/crud.go:49-80 | The transaction commits all of the row and its overrides or rolls back to the old tables |
| `Store.Store.CreateCluster` | orchestration/database/crud.go:147-176 | The transaction commits all of the row and its overrides or rolls back to the old tables |
| `Store.Store.UpdateServer` | orchestration/database/crud.go:82-94 | One UPDATE under the constraints; an absent row is a success that changes nothing |
| `Store.Store.UpdateCluster` | orchestration/database/crud.go:178-188 | One UPDATE under the constraints; an absent row is a success that changes nothing |
| `Store.Store.DeleteScopedServer` | orchestration/database/crud.go:198-219 | The six deletes remove the row and its scope and nothing else |
| `Store.Store.DeleteScopedCluster` | orchestration/database/crud.go:223-244 | Fails exactly while members exist; otherwise the row and its scope are gone and nothing else |
| `Store.Store.AllocateIP` | orchestration/api/servers.go:302-320 | Collecting the used addresses and scanning gives the lowest free one |

## Left out

- Docker, netlink, nftables, NFQUEUE, the SQL driver, HTTP transport and its retries, TOML, archives and the file system: only the outcomes of the calls are modelled.
- `parseUDPv4`, bad addresses and `Unmap`: clients and backends arrive as parsed addresses.
- Conntrack timeouts: a flow may expire at any moment.
- Isolation.InstanceIsolation: the kernel's map lookup for a packet and the appearance of its flow in a conntrack dump are one step; in the kernel an entry is confirmed later than it is looked up, so a dump can miss a flow that is about to appear.
- Isolation.InstanceIsolation: the run has fewer than 2^32 adds, the kernel deletes made for that address succeed and no outside Unmanage hits its pool; after any of these the element or flow left behind is the leak.
- FleetRun.ServerKeepsIsolation: assumes that only the workers of one server call for the address; OverlappingWorkersLeak shows what happens otherwise.
- ProxyTheorems.RoundRobinFair: the cursor does not wrap at 2^64 within the segment; nothing is said of a segment in which it does.
- Router pools are values in a map rather than pointers; no two ports ever share a pool, so no aliasing is lost.
- The manager is a step machine and not a class, because its methods run concurrently with the workers; the channel of status changes, `Status` and the docker event watcher beyond its wake-ups are not modelled.
- Manager.NoLostWakeup: after a refused read only the resync ticker is left, whose period is not modelled.
- FleetRun: a read outcome and the reconcile it starts are matched by `Coherent`, but the times of different workers' answers are independent of one another.
- A worker's `lastErr`, its row snapshot, `signalChange` and `accepting_connections`: they feed the status display and decide nothing here.
- WorkerState hours are reals; float64 rounding and the overflow of very large hour values into a duration are not modelled.
- Within one reconcile the clock is read at three modelled moments (crash noted, limits checked, bring-up ended).
- Several SQL transactions at once, lock waits, name collation and VARCHAR limits: requests are serial and names are compared as strings.
- Clearing a cluster's or server's override set, which no API request does; `resolveBool` and `resolveHrs`, which pick one of three values.
- Catalogue bodies: a manifest is what it requires, and putting a config or a manifest only adds its name.
- Cache fetches at once, evictions at once, a listing that cannot be read, hash collisions of URLs, and a process that dies between two file operations.
- CacheTheorems.AnswersAreUpstreams: the TTL of a hit counts from the moment the confirmation was recorded, which is after upstream answered.
- CacheTheorems.AnswersAreUpstreams: a 200 whose entry is evicted at once returns the path of a missing file; DownloadSurvives says when this cannot happen.
- Regular expressions outside the fragment the reader of `Glob.dfy` knows (counted repetition, other classes, flags): it refuses them, and none is written.
- Whether docker carries out a stop: a stop that was asked for counts as made, as the worker takes it.
- Symbolic links and files that appear during the walk; `envReplacer`, templates and layout rules of plugins.
- Which of several failing plugins is reported first.
- Provisioning, mounts, authentication, TLS, the event stream to the browser, host statistics and the web frontend.

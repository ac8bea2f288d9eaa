# Verified cores of the agent platform

A Dafny 4.11 model of six stateful cores of the platform, with proofs of what each of them
promises over all inputs, all runs or all reachable states. `dafny verify dfyconfig.toml`
checks everything.

| core | model | objects proved to follow the model | laws |
|---|---|---|---|
| dependency-injection container and start gate | `ContainerModel`, `ContainerRuns`, `Graph`, `Places` | `Containers`, `Validator` | `ContainerGrowth`, `RootResolution`, `RootSuccess`, `CycleReports`, `Supplies`, `ScopeCycles`, `ShadowedNames`, `Detectors`, `SingletonOnce`, `Wiring`, `StartGate`, `ContainerOps` |
| discovery cache | `CacheModel` | `RuntimeCaches` | `CacheModel`, `RuntimeCaches.LoadRunRestart` |
| event bus | `EventBus` | (a transition system) | `BusInvariant`, `EventBusLaws`, `BusDelivery`, `BusFailures`, `BusRuns` |
| execution routing, failover, accounting | `Routing`, `EngineModel`, `Failover` | `Routing.LoadBalancingRouter`, `EngineManager` | `Routing`, `EngineModel`, `Failover` |
| execution log, runtime registry | `LogModel`, `RegistryModel`, `Tally` | `ExecutionLogs`, `RuntimeRegistries` | `LogModel`, `RegistryModel` |
| polling watcher | `WatcherModel` | `RuntimeWatchers` | `WatcherModel` |

How to read it. Code that updates objects in place is a class here, with methods of the same
shape, and every such method's contract equates the new abstract state with a function of the
old one. The laws are proved about those functions and so hold of the objects. What the small functions
themselves leave behind is said once more field by field or by index, without naming them
(`ContainerOps`, and the members called `...Means`). Randomness, clocks,
factories, engines and the disk are parameters: an oracle says which factory call raises, how an
engine behaves during an attempt, which write fails, how far the clock moves between two readings.

## What the proofs settle

- **The start gate is exact.** In a root container whose slots are covered, the cycle check and the
  missing-dependency check pass exactly when every registered key resolves, from every reachable
  cache state, after any operations on any scope (`StartGate.GateIsExact`, `AcceptedNeverFails`).
- **Resolution is exact.** The outcome in a root container is decided by the registrations alone
  (`RootSuccess.ResolutionExact`); it terminates on every graph and undoes its bookkeeping on every
  exit (`ContainerModel.Resolve`); what it builds is wired as declared (`Wiring.ServeWires`).
- **A file can stand in for memory.** After any operations on a loaded cache, with time moving
  during each of them, a second cache loaded from the file answers every key as the first does, if
  no write fails and even if only the last one did not (`RuntimeCaches.LoadRunRestart`).
- **Cycle reports, in any tree of scopes.** A report means that a path of needs meets a name twice
  (`CycleReports.CyclicMeetsName`); without shadowed names it means a real cycle
  (`CyclicErrorIsReal`); and where nothing behind a kept service is ambiguous both hold in both
  directions (`ScopeCycles.TreeOutcomeExact`, `ReportsTrueExactly`).
- **Lifetimes hold from reset to reset**: between two builds of one singleton its container was
  reset (`ContainerRuns.RebuiltOnlyAfterReset`), and a transient is new across any resets. From the
  registration on: what was registered as a singleton answers with one instance
  (`ContainerOps.RegisteredSingletonIsOne`), and after `clear_scoped` a scoped service is built anew
  (`ClearedIsRebuilt`).
- **What is published is delivered.** Of a publish call that takes the queue, every handler's item is
  accepted by a queue exactly once and in handler order, up to a point from which the call is still
  putting or has dropped the rest (`BusDelivery.PublishDelivers`); it drops only when the bus has no queue
  (`DroppedWithoutQueue`).
- **The bus keeps its books.** Over every interleaving of publishers, workers and any overlapping
  `start`, `stop` and `drain` calls, every queue is in order and within capacity, no ticket is
  dispatched twice, and the count of unfinished items is exact up to calls of `task_done` that went
  astray (`BusInvariant.Conservation`). None goes astray, and `drain` delivers, in every run in which no
  `start` fires while a `stop` call has yet to return (`EventBusLaws.CountExact`, `BusDelivery.DrainDelivers`);
  at any point of such a run a `start` that does so can be continued to a `drain` that returns too
  early (`BusFailures.StartDuringStopBreaksDrain`).

- **Runs are charged where they belong.** Over a whole failover each name is charged one run for every
  position up to the winner at which it is listed, eligible and healthy, and only the winner's counts as
  a completion (`Failover.FailoverAccounts`).
- **Routing is optimal.** Under every strategy the type chosen is the first best on the list
  (`Routing.RouteOptimal`), and the engine selected is the first of that type
  (`EngineModel.SelectMeans`).

## Where code and documentation disagree

The model follows the code. Each case has a lemma with the exact condition, most also an input.

- `create_scope` speaks of scoped services as resolved once per scope. They are kept per *owner*: a scoped service
  registered in a parent is shared by all its children (`ContainerRuns.ScopedIsPerOwner`).
- A name that stands for different registrations in a container and its parent can be reported as
  a cycle though there is none (`ShadowedNames.ShadowedNameReportedCyclic`,
  `RepeatedNameReportedCyclic`): exactly if one lies below the other and there is no cycle besides
  (`ScopeCycles.ReportsTrueExactly`). What a cache answers first is not noticed at all
  (`ShadowedNames.CachedNameNotReported`).
- `unsubscribe` with the id that `subscribe` returned has no effect when the topic contains a colon
  (`EventBusLaws.UnsubscribeExact`, `ColonKeepsSubscription`).
- A `start` during an unfinished `stop` loses direct tasks or workers: `drain` returns early and
  `task_done` raises (`BusRuns.DrainAfterClear`, `ForgottenWorkerMiscounts`).
- The start gate looks at declared dependencies only. A `*args` parameter that a dependency or a hint
  fills passes the gate and fails to resolve (`StartGate.AcceptedButNotCovered`), so the gate theorems ask
  for covered slots.
- Expired entries count towards the cache's capacity, so a live entry may be evicted that a
  restarted cache would keep (`CacheModel.ExpiredEntryCostsALivingOne`); the restarted cache goes on
  like the live one exactly under the condition of `CacheModel.SetAfterRestart`.
- Engine selection can hand out a disabled or unhealthy engine: exactly when such an engine is
  registered before every usable one of an available type (`EngineModel.SelectionExact`).
- `update` in the registry leaves the old name behind when it renames
  (`RegistryModel.RenameLeavesStaleName`, `UpdateExact`).
- `stats` of the execution log adds up exactly when no status is the word "total"
  (`LogModel.StatsAddUp`).
- A poll after a snapshot without any readable directory reports nothing, whatever appeared
  (`WatcherModel.BlindPoll`, `TelescopesExactly`).

## Model

| member | source | states |
|---|---|---|
| ContainerModel.Resolve | src/agentic_os/core/container.py:317-418 | terminates on every registration graph over any parent chain, by unvisited names and then remaining chain; on every exit, normal or exceptional, the visited set, all chain marks, registrations, aliases and counters are as on entry |
| ContainerModel.Gather | src/agentic_os/core/container.py:363-397 | resolving dependencies and filling slots leaves the same things as found |
| ContainerModel.LeaveUndoes | src/agentic_os/core/container.py:359-361 | the finally clause undoes the two detectors whatever was resolved in between |
| ContainerGrowth.ResolveExtends | src/agentic_os/core/container.py:317-418 | in any tree and on every exit caches and the build log only grow, and no key under construction is cached by another build |
| ContainerGrowth.FinishEffect | src/agentic_os/core/container.py:399-418 | exactly which caches, log entries and call counts the last part of a resolution changes, by lifetime and outcome |
| RootSuccess.ResolutionExact | src/agentic_os/core/container.py:317-418 | with factories that do not raise, a root container answers Ok iff the key is registered, nothing below it is cyclic and everything below can be supplied; Missing iff unregistered; Cyclic only on a real cycle and always when suppliable and cyclic |
| RootSuccess.SuccessProvesAcyclic | src/agentic_os/core/container.py:332-361 | a successful resolve proves the effective and the declared graph below the key acyclic even when caches answered |
| RootSuccess.ResolveGrounds | src/agentic_os/core/container.py:346-357 | every resolve keeps each cached key grounded: acyclic below, suppliable below, all singletons below cached |
| RootSuccess.ResolveSupplied | src/agentic_os/core/container.py:380-405 | if everything below is suppliable and no factory raises, no resolution error and no missing error occurs |
| CycleReports.CyclicErrorIsReal | src/agentic_os/core/container.py:332-344 | in any tree, if no registration at or below the key lies below another one of its name, a Cyclic error means that a registration at or below the key needs itself, along needs looked up from each container |
| CycleReports.CyclicMeetsName | src/agentic_os/core/container.py:332-344 | in any tree, from any caches and with any factories, a Cyclic error means that some path of needs from the key meets two registrations of one name |
| CycleReports.RootCycleIsReal | src/agentic_os/core/container.py:332-344 | in a root container a Cyclic error is a cycle of the effective graph below the key |
| Places.NameMetTwice | src/agentic_os/core/container.py:322-344 | a path that meets a name twice shows a cycle or a shadowed name |
| Supplies.ResolveSuppliedAt | src/agentic_os/core/container.py:380-405 | in any tree, if everything at or below a registration finds its needs from where it stands and no factory raises, the outcome is Ok or Cyclic |
| Supplies.FilledBinds | src/agentic_os/core/container.py:386-399 | with all slots seen to, the factory call binds iff each parameter, by its kind, is content with whether it was filled |
| ScopeCycles.TreeOutcomeExact | src/agentic_os/core/container.py:317-418 | in any tree with supplied needs, unambiguous names behind kept services and factories that do not raise: Cyclic iff some path meets a name twice, otherwise Ok |
| ScopeCycles.ReportsTrueExactly | src/agentic_os/core/container.py:332-344 | there, reports are always real iff no name is shadowed or there is a cycle anyway; without shadowing Cyclic iff a cycle |
| ScopeCycles.ResolveClear | src/agentic_os/core/container.py:346-418 | a success shows that no path from the key meets a name twice or a name under construction, also where caches answered |
| ScopeCycles.TransientsUnambiguous | src/agentic_os/core/container.py:346-357 | among transient services the conditions on names and caches hold by themselves |
| ScopeCycles.RootUnambiguous | src/agentic_os/core/container.py:322-330 | in a root container no name is ambiguous or shadowed |
| ShadowedNames.ShadowedNameReportedCyclic | src/agentic_os/core/container.py:326-335 | a parent and a child with its own registration of a name: reported as cyclic, and nothing needs itself |
| ShadowedNames.RepeatedNameReportedCyclic | src/agentic_os/core/container.py:326-335 | the same with equal registrations in both |
| ShadowedNames.CachedNameNotReported | src/agentic_os/core/container.py:346-352 | a supplied tree with nothing cached in which a path meets a name twice and the resolve succeeds, because the parent's new singleton answers for the child's |
| Detectors.DetectorsAgree | src/agentic_os/core/container.py:332-344 | at every nested call of one resolution, marked by the chain implies visited by name, and in a root container the two tests hold of the same keys |
| SingletonOnce.ResolveOnce | src/agentic_os/core/container.py:346-357 | in any tree a resolve keeps: one singleton build per container and key since the container was last reset, caches hold only what was built for them, serials tell all builds apart |
| ContainerRuns.Serve | src/agentic_os/core/container.py:240-259 | the public resolve keeps the tree well formed |
| ContainerRuns.Apply | src/agentic_os/core/container.py:135-316 | every public operation, error answers included, keeps the tree well formed |
| ContainerRuns.RunKeeps | src/agentic_os/core/container.py:135-316 | every run, resets included, keeps the lifetime invariant, and scopes, calls and the build log only grow |
| ContainerRuns.RunKeepsAt | src/agentic_os/core/container.py:240-301 | over any run that resets neither a container nor its parent, what the two hold persists and the container goes on deferring to its parent |
| ContainerRuns.SingletonsBuiltOnce | src/agentic_os/core/container.py:346-352 | in every state of every run no container has built a singleton twice since its last reset |
| ContainerRuns.RebuiltOnlyAfterReset | src/agentic_os/core/container.py:346-352 | if a run builds the same singleton twice in a container, that container was reset after the first build and before the second |
| ContainerRuns.SingletonIsOneInstance | src/agentic_os/core/container.py:240-296 | two successful resolves of a singleton's key, from any scopes its owner answers for, give one instance, whatever happened before and with any operations between that reset neither the owner nor its parent |
| ContainerRuns.SingletonHeld | src/agentic_os/core/container.py:346-352 | a successful singleton resolution is answered by what its owner, or the owner's parent, holds from then on |
| ContainerRuns.TransientNeverSeenBefore | src/agentic_os/core/container.py:410-418 | over any run a transient resolution never returns what an earlier resolve returned |
| ContainerRuns.ScopedIsPerOwner | src/agentic_os/core/container.py:294-301 | in any state that satisfies the run invariant two scopes get the same scoped instance iff the same container registers the service for both |
| ContainerRuns.ResolveAtOwner | src/agentic_os/core/container.py:322-330 | resolving anywhere is resolving at the nearest scope that registers the key, or Missing if there is none |
| Wiring.ResolveWires | src/agentic_os/core/container.py:380-399 | everything built at any depth gets, per parameter, the instance made for the dependency of that name, else the default, else the instance made for the hint |
| Wiring.ServeWires | src/agentic_os/core/container.py:240-259 | the same for every public resolve after any run; the answer itself was made for the resolved key |
| Containers.Factories.Call | src/agentic_os/core/container.py:399 | calling a factory by keywords does to log and call count what the model's construction says, and raises where a parameter is left out or unexpected |
| Containers.Container.ResolveChain | src/agentic_os/core/container.py:317-418 | the recursive method on objects computes exactly the model's outcome and final state of the whole tree |
| Containers.Container.GatherArgs | src/agentic_os/core/container.py:363-397 | the two loops compute exactly the model's arguments, error and state |
| Containers.Container.FinishBuild | src/agentic_os/core/container.py:399-418 | construction, the finally clause, failure marking and caching together equal the model's last part |
| Containers.Container.FindCached | src/agentic_os/core/container.py:346-357 | the cache lookups, including the parent's singletons, equal the model's |
| Containers.Container.FindKey | src/agentic_os/core/container.py:305-315 | key lookup through registrations, aliases and parents equals the model's |
| Containers.Container.ResolveService | src/agentic_os/core/container.py:240-259 | the public resolve on objects equals the model's |
| Containers.Container.Register | src/agentic_os/core/container.py:135-227 | registration on objects equals the model's, which `ContainerOps.RegisterMeans` says field by field: refused iff the key is taken and the name is empty or another, otherwise exactly what was asked for |
| Containers.Container.AddAlias | src/agentic_os/core/container.py:229-236 | alias creation, refused for an unregistered target |
| Containers.Container.ClearScoped | src/agentic_os/core/container.py:298-301 | drops the scoped instances of this container and nothing else in the tree |
| Containers.Container.ResetAll | src/agentic_os/core/container.py:451-458 | clears this container and nothing else in the tree |
| Containers.Container.CreateScope | src/agentic_os/core/container.py:294-296 | adds one empty child scope at the end of the tree and keeps all other containers |
| ContainerOps.RegisterMeans | src/agentic_os/core/container.py:163-208 | refused iff the key is taken, unnamed or under another name, and then nothing changes; otherwise the key has exactly the lifetime, name, dependencies and parameters given, a ready-made object being a singleton without parameters, and everything else is as before |
| ContainerOps.StaysSingleton | src/agentic_os/core/container.py:197-206 | only a reset or a later registration under the same name changes what a key stands for |
| ContainerOps.RegisteredSingletonIsOne | src/agentic_os/core/container.py:135-208 | register a singleton, do anything that resets neither its container nor the parent and does not replace it: two successful resolves the container answers give one instance |
| ContainerOps.AliasMeans | src/agentic_os/core/container.py:229-236 | refused iff the target is not registered here; otherwise only that alias changes |
| ContainerOps.AliasResolves | src/agentic_os/core/container.py:305-315 | asking for an alias is asking for its target, unless the alias is registered itself |
| ContainerOps.KeyLookup | src/agentic_os/core/container.py:305-315 | a registration wins over an alias, an alias over the parent |
| ContainerOps.ClearedIsRebuilt | src/agentic_os/core/container.py:298-301 | after `clear_scoped` of the owner a scoped service is a new object, whoever asks |
| ContainerOps.ResetMeans | src/agentic_os/core/container.py:451-458 | after a reset nothing is registered, cached or aliased in this container; without a parent every resolve is Missing |
| ContainerOps.CreateScopeMeans | src/agentic_os/core/container.py:294-296 | one empty container below this one, and nothing else changes |
| ContainerOps.StatusMeans | src/agentic_os/core/container.py:403-415 | a registration that was being built is marked failed by a resolution error and resolved when a singleton was built |
| ContainerOps.BindsMeans | src/agentic_os/core/container.py:399 | a call by keywords binds iff required parameters are filled, positional-only ones have defaults and no keyword is unexpected |
| Validator.Search.Visit | src/agentic_os/core/di_validator.py:111-123 | one depth-first visit with the shared set and stack: a reported path is a closed walk; otherwise the stack is restored and the node is finished after all it reaches; terminates by unvisited nodes |
| Validator.CheckCycles | src/agentic_os/core/di_validator.py:99-136 | reports a cycle iff the declared graph has one, self-loops and dangling targets included, and the report is a closed walk along edges |
| Validator.Validate | src/agentic_os/core/di_validator.py:585-630 | results are partitioned by status in order, a raising checker counts as failed, and the report succeeds iff no check failed |
| Validator.OnlyInOrder | src/agentic_os/core/di_validator.py:585-630 | each list of results keeps the order in which the checkers ran |
| StartGate.CheckMissing | src/agentic_os/core/di_validator.py:150-177 | lists exactly the declared dependencies registered neither here nor in an ancestor |
| StartGate.Gate | src/agentic_os/core/di_validator.py:555-630 | the kernel starts iff the declared graph is acyclic, no dependency is missing and no other checker fails |
| StartGate.AcceptedResolves | src/agentic_os/core/container.py:317-418 | accepted registrations with covered slots, parameter kinds considered: every registered key resolves, whatever is cached |
| StartGate.AllResolveAccepted | src/agentic_os/core/di_validator.py:99-177 | if every registered key resolves, both checks pass |
| StartGate.RunKeepsRoot | src/agentic_os/core/container.py:240-301 | any operations on any scopes that leave the root's registrations alone keep the root's caches grounded |
| StartGate.SingletonClosure | src/agentic_os/core/container.py:380-383 | in every reachable state all singletons reachable by declared dependencies from a cached singleton or scoped service, also through transients, are cached |
| StartGate.AcceptedNeverFails | src/agentic_os/core/di_validator.py:99-177 | once accepted, every public resolve the root answers succeeds after any operations |
| StartGate.GateIsExact | src/agentic_os/core/di_validator.py:99-177 | in every reachable state: accepted iff every registered key resolves |
| StartGate.AcceptedButNotCovered | src/agentic_os/core/container.py:387-399 | concrete registrations that the gate accepts and of which one cannot be resolved, because its *args is filled by keyword |
| CacheModel.AgreeAnswers | services/runtime_discovery/cache.py:178-187 | two stores that agree now answer every key alike at every later time, up to hit counts |
| CacheModel.TracksAnswers | services/runtime_discovery/cache.py:178-187 | a store that tracks the history answers exactly the last stored, not removed, not expired entry |
| CacheModel.OldestIsLeast | services/runtime_discovery/cache.py:262-267 | the evicted entry is in the cache and none was created earlier |
| CacheModel.OldestIsFirst | services/runtime_discovery/cache.py:266 | of several entries of least creation time the first is evicted |
| CacheModel.StoreKeepsOthers | services/runtime_discovery/cache.py:189-195 | with room, or under a key that is there, storing keeps every other entry |
| CacheModel.StoreEvictsOldest | services/runtime_discovery/cache.py:189-195 | a new key in a full cache takes the place of exactly one entry, the first of least creation time |
| CacheModel.StoreBound | services/runtime_discovery/cache.py:189-195 | with room for at least one entry and a start within bound, storing stays within bound |
| CacheModel.SameVictim | services/runtime_discovery/cache.py:262-267 | agreeing stores in which nothing has expired evict the same entry |
| CacheModel.SetStaysAlike | services/runtime_discovery/cache.py:189-195 | two stores that answer alike still do after the same set iff it costs both the same living entry, or neither one |
| CacheModel.SetAfterRestart | services/runtime_discovery/cache.py:189-195 | a restarted cache answers like the live one after a set iff: if the copy is full and lacks the key, the live one lacks it too and its oldest entry lives; else the live one has room, holds the key, or its oldest entry has expired |
| CacheModel.ExpiredEntryCostsALivingOne | services/runtime_discovery/cache.py:189-195 | a concrete live cache that evicts a living entry where the restarted one evicts none |
| RuntimeCaches.RuntimeCache.Load | services/runtime_discovery/cache.py:73-106 | a loaded cache agrees with the file from then on and holds nothing that had expired when loading began |
| RuntimeCaches.RuntimeCache.LoadFile | services/runtime_discovery/cache.py:91-106 | memory is the file without entries that expired by the time each was read; nothing expired at the start is loaded |
| RuntimeCaches.RuntimeCache.InMemory | services/runtime_discovery/cache.py:73-87 | a cache without a directory starts empty and valid |
| RuntimeCaches.RuntimeCache.Save | services/runtime_discovery/cache.py:117-151 | terminates although it cleans and cleaning saves, while time advances; with a directory it makes an attempt to write, leaves no entry expired at the call, and the file equals memory if the last attempt does not fail |
| RuntimeCaches.RuntimeCache.CleanExpired | services/runtime_discovery/cache.py:231-238 | removes only expired entries and every entry expired at the call, and returns how many its own sweep dropped; if it removed any it attempts to write, and the file equals memory if the last attempt does not fail; otherwise memory and disk are untouched |
| RuntimeCaches.RuntimeCache.Clean | services/runtime_discovery/cache.py:231-238 | the same called from outside, keeping the file able to stand in for memory |
| RuntimeCaches.RuntimeCache.Get | services/runtime_discovery/cache.py:178-187 | returns exactly the entry last stored under the key, with one more hit, if not removed since and not expired at the reading; only finding an expired entry touches the disk, and then it is written |
| RuntimeCaches.RuntimeCache.Set | services/runtime_discovery/cache.py:189-195 | evicts only for a new key at capacity, then stores, up to entries swept out as expired; stays within bound; attempts to write, and the file equals memory if the last attempt does not fail |
| RuntimeCaches.RuntimeCache.EvictOne | services/runtime_discovery/cache.py:262-267 | removes the first entry of least creation time and nothing else |
| RuntimeCaches.RuntimeCache.Invalidate | services/runtime_discovery/cache.py:199-202 | removes the key and nothing living besides, never grows, and attempts to write |
| RuntimeCaches.RuntimeCache.InvalidateWhere | services/runtime_discovery/cache.py:204-218 | removes exactly the matching entries, up to expired ones, and attempts to write iff there were any |
| RuntimeCaches.RuntimeCache.InvalidateAll | services/runtime_discovery/cache.py:220-227 | empties memory and makes one attempt to delete the file, which is gone unless that fails |
| RuntimeCaches.Restart | services/runtime_discovery/cache.py:91-151 | at any moment a second cache can be loaded; if the latest attempt to change the disk succeeded, it answers every key from then on as the live cache does, up to hit counts |
| RuntimeCaches.Disk.Write | services/runtime_discovery/cache.py:122-151 | one attempt, decided by its number; the old contents survive a failure |
| RuntimeCaches.Disk.Unlink | services/runtime_discovery/cache.py:223-227 | one attempt, decided by its number; the file survives a failure |
| RuntimeCaches.PerformAll | services/runtime_discovery/cache.py:178-238 | any operations in any order keep the cache valid and within its bound; without an attempt the file is unchanged; the trail says what each operation recorded |
| RuntimeCaches.RunThenGet | services/runtime_discovery/cache.py:178-238 | after any run get answers the entry stored last under the key, as long as no operation since replaced, removed or evicted it and it has not expired |
| CacheModel.StoredStays | services/runtime_discovery/cache.py:178-238 | what was stored stays in the history, up to hits, while every later operation spares it |
| RuntimeCaches.LoadRunRestart | services/runtime_discovery/cache.py:91-238 | load, any operations, load again: if no write fails, and already if the last one did not, both caches answer every key alike from then on |
| BusInvariant.StepKeeps | core/event_bus/bus.py:28-142 | every enabled step of every actor, overlapping start and stop calls included, keeps the bus invariant |
| BusInvariant.RunKeeps | core/event_bus/bus.py:28-142 | the invariant holds throughout every interleaving |
| BusInvariant.Conservation | core/event_bus/bus.py:28-113 | in every reachable state of every interleaving and for every queue there ever was: within capacity, accepted items leave in order, unfinished plus foreign calls equals queued plus in flight plus stray calls; no ticket is dispatched twice |
| EventBusLaws.StepOrder | core/event_bus/bus.py:45-113 | every step but a start during an unfinished stop keeps the bus in good order: one stop at a time, all live workers serve the current queue, the task set holds exactly the direct dispatches |
| EventBusLaws.RunOrder | core/event_bus/bus.py:45-142 | good order throughout every run in which no start fires while a stop call has not returned |
| EventBusLaws.CountExact | core/event_bus/bus.py:28-43 | in such a run every queue counts as unfinished exactly what is queued and in flight |
| EventBusLaws.TaskDoneIsSafe | core/event_bus/bus.py:36-43 | in such a run no call of task_done fails, so no worker dies of one |
| EventBusLaws.DrainGuarantee | core/event_bus/bus.py:138-142 | in such a run, when drain returns and no stop was under way at the call or began since, every dispatch accepted before the call is over |
| BusFailures.StartDuringStopBreaksDrain | core/event_bus/bus.py:45-86 | from every state of such a run with a stop call under way, a start has a continuation in which an undisturbed drain returns while a dispatch it saw is still running |
| BusFailures.TrailingBreaks | core/event_bus/bus.py:84-86 | the stop clears the task set under a direct dispatch that began after the start, and drain no longer sees it |
| BusRuns.DrainAfterClear | core/event_bus/bus.py:84-86 | a concrete run of that kind, from a new bus without workers |
| BusRuns.ForgottenWorkerMiscounts | core/event_bus/bus.py:36-83 | a concrete run in which a worker forgotten by a start during a join calls task_done on the next queue: drain returns early and the new worker dies of ValueError |
| EventBusLaws.OneTicketPerHandler | core/event_bus/bus.py:88-113 | a publish makes exactly one ticket per handler subscribed at that moment, and tickets keep their meaning; what becomes of them is said by `BusDelivery` |
| BusDelivery.PublishDelivers | core/event_bus/bus.py:99-108 | at every moment after a publish that took the queue: a first part of its tickets was accepted by queues, each exactly once and in handler order; the call is still putting the rest, or dropped it |
| BusDelivery.PublishFinished | core/event_bus/bus.py:99-108 | once none of its tickets waits, each was accepted, or dropped together with all that follow it |
| BusDelivery.DroppedWithoutQueue | core/event_bus/bus.py:104-108 | a ticket is dropped only by a turn of its own call that found the bus without a queue |
| BusDelivery.WaitingCanBePut | core/event_bus/bus.py:104-108 | a waiting ticket belongs to a call that can go on putting, or is blocked on a queue that is full |
| BusDelivery.OnceRun | core/event_bus/bus.py:104-108 | over every run no ticket is accepted twice, by one queue or by two |
| BusDelivery.StageStep | core/event_bus/bus.py:28-142 | every step moves a ticket forward or not at all; only the exception of its call drops it |
| BusDelivery.DirectPublish | core/event_bus/bus.py:109-113 | a publish that does not take the queue makes a task of every ticket, known to drain and stop |
| BusDelivery.DrainDelivers | core/event_bus/bus.py:138-142 | in a proper run: drain called while no stop is under way, none begun until it returned: every ticket queued, running or direct at the call is over |
| BusDelivery.StartServes | core/event_bus/bus.py:44-59 | start on a stopped bus: the queue there is or a new empty one, and exactly the configured number of new workers |
| BusDelivery.WorkerSurvivesHandler | core/event_bus/bus.py:28-42 | in a proper run a worker whose handler returned or raised awaits the next item of the same queue |
| EventBusLaws.UnsubscribeExact | core/event_bus/bus.py:127-136 | unsubscribing with the returned id removes the handler iff the topic has no colon |
| EventBusLaws.SubscribeExact | core/event_bus/bus.py:127-131 | subscribing adds the handler at the end of its topic unless it is there, and changes no other topic |
| EventBusLaws.UnsubscribeSparesOthers | core/event_bus/bus.py:133-136 | unsubscribing spares every other handler of every topic |
| EventBusLaws.ColonKeepsSubscription | core/event_bus/bus.py:127-136 | the topic "a:b", whose handler stays subscribed |
| EventBusLaws.ErrorsExact | core/event_bus/bus.py:115-125 | over every run a topic's error count is the number of its dispatches, queued or direct, whose handler raised; a cancelled handler is none |
| EventBusLaws.TopicsRun | core/event_bus/bus.py:127-136 | no handler is ever subscribed twice to a topic |
| Routing.FastestIsLeast | services/execution_engine/routing.py:102-117 | the fastest router selects a type of least latency and keeps all the others as alternatives |
| Routing.LowestCostIsLeast | services/execution_engine/routing.py:120-141 | preferring free engines minimises cost over all available types |
| Routing.HighestQualityIsMost | services/execution_engine/routing.py:144-159 | the quality router selects a type of highest quality and keeps all the others |
| Routing.CapableIsMost | services/execution_engine/routing.py:162-188 | the capability router selects a type matching most required capabilities and keeps all the others |
| Routing.SortedHead | services/execution_engine/routing.py:108-110 | the head of the stable sort is the first element of least key |
| Routing.LoadBalancingRouter.Select | services/execution_engine/routing.py:191-210 | counts exactly one pick of the selected type, of least count among those offered, and follows the run of calls so far |
| Routing.PickIsLeast | services/execution_engine/routing.py:202-204 | each pick has the least count among the available types |
| Routing.CountersSumToPicks | services/execution_engine/routing.py:195-210 | with availability varying at every call the counters sum to the number of picks |
| Routing.LoadIsFair | services/execution_engine/routing.py:191-210 | with n fixed types in any order, after m picks each was picked m/n or m/n + 1 times, exactly m%n of them once more |
| Routing.FailoverIsFirstPrimary | services/execution_engine/routing.py:213-236 | the first listed primary type that is available wins; without one the first available type; fails iff none is available |
| Routing.RouteSelectsAvailable | services/execution_engine/routing.py:261-291 | every built-in strategy but failover selects an available type iff there is one |
| Routing.RouteOptimal | services/execution_engine/routing.py:261-291 | under each strategy the chosen type is the first listed of least latency, least cost, highest quality, most required capabilities or fewest picks; the alternatives are all other types, by rank, or for the lowest cost all other types |
| Routing.SortedAscending | services/execution_engine/routing.py:108-108 | sorting by a key lists by ascending key |
| Routing.MatchedExact | services/execution_engine/routing.py:172-180 | a score is the number of positions of the required list that are offered |
| EngineModel.RunConsistent | services/execution_engine/manager.py:121-194 | in every reachable state engines and configurations have the same names and types, also after registrations that raise half-way |
| EngineModel.RegisterMeans | services/execution_engine/manager.py:146-163 | which dictionaries a registration has changed, by the step that raised |
| EngineModel.OpMeans | services/execution_engine/manager.py:121-225 | what unregistering, switching, a health answer and a shutdown leave under the name |
| EngineModel.OthersUntouched | services/execution_engine/manager.py:121-225 | an operation on one engine says nothing of any other |
| EngineModel.DroppedExact | services/execution_engine/manager.py:165-178 | unregistering keeps the other engines in registration order |
| EngineModel.SelectionTotal | services/execution_engine/manager.py:524-576 | in every reachable state with an available type the lookup finds a registered engine and the fallback index is never reached |
| EngineModel.SelectMeans | services/execution_engine/manager.py:524-563 | a name picks exactly that engine iff it is registered; otherwise the first engine of the available type that the strategy ranks best |
| EngineModel.NothingOnOffer | services/execution_engine/manager.py:537-539 | no type is available iff no engine of the wanted type is enabled and not known to be unhealthy |
| EngineModel.SelectionUsable | services/execution_engine/manager.py:537-561 | with pairwise distinct types and no engine named after another's type the engine found is enabled and not known unhealthy |
| EngineModel.SelectionExact | services/execution_engine/manager.py:556-576 | every possible selection is usable iff no unusable engine comes before all usable matches of an available type |
| EngineModel.DisabledTwinSelected | services/execution_engine/manager.py:556-576 | a concrete run after which a disabled engine is selected |
| Failover.AccountsReconcile | services/execution_engine/manager.py:578-587 | over any run an engine's completed, failed, total and average equal those of its runs past the health gate since its metrics were last replaced or removed |
| Failover.AttemptSettles | services/execution_engine/manager.py:294-379 | an attempt always ends in a terminal status, completed iff healthy and a real result came back, with an error otherwise |
| Failover.AttemptMeans | services/execution_engine/manager.py:294-379 | seconds, output, status and error after each behaviour of the engine |
| Failover.AttemptAccounts | services/execution_engine/manager.py:374-377 | an attempt adds exactly one run to the metrics of the task's engine iff the health check answered healthy: a completion iff a real result came back, a failure otherwise, with the measured seconds or the task's old ones; other names are unchanged |
| Failover.FailoverWins | services/execution_engine/manager.py:410-446 | the result is the task completed by the first listed engine that is registered, enabled and completes; exactly the attempts up to it are charged |
| Failover.FailoverFails | services/execution_engine/manager.py:417-446 | if none completes the task fails with the last attempt's error, or none if nothing was tried, and all attempts past the gate are charged |
| Failover.FailoverAccounts | services/execution_engine/manager.py:410-446 | each name is charged one run for every position up to the winner, or of the whole list, at which it is listed, eligible and healthy, with the seconds measured there; only the winner's run is a completion |
| Failover.FailoverCompletes | services/execution_engine/manager.py:410-446 | a failover completes iff some listed engine is registered, not disabled, healthy and returns a real result |
| Failover.RecordsKeepEngines | services/execution_engine/manager.py:374-379 | runs change metrics only |
| Failover.FailoverKeepsEngines | services/execution_engine/manager.py:410-446 | failover, however it ends, changes nothing but metrics |
| EngineManager.ExecutionMetrics.RecordTask | services/execution_engine/models.py:121-141 | updates counters, total and average as the model records a run |
| EngineManager.ExecutionEngineManager.RegisterEngine | services/execution_engine/manager.py:146-163 | stores engine, config, health and fresh metrics, stopping where initialisation, health check or telemetry raises |
| EngineManager.ExecutionEngineManager.UnregisterEngine | services/execution_engine/manager.py:165-178 | removes every trace of the name |
| EngineManager.ExecutionEngineManager.SwitchEngine | services/execution_engine/manager.py:180-194 | enabling and disabling touch only that configuration |
| EngineManager.ExecutionEngineManager.NoteEngineHealth | services/execution_engine/manager.py:218-225 | records a health answer even for an engine gone meanwhile |
| EngineManager.ExecutionEngineManager.ShutDown | services/execution_engine/manager.py:121-131 | clears engines, configs and health but keeps metrics |
| EngineManager.ExecutionEngineManager.UpdateMetrics | services/execution_engine/manager.py:578-587 | charges one run to the task's engine, creating metrics if there are none |
| EngineManager.ExecutionEngineManager.Drive | services/execution_engine/manager.py:297-372 | the task's fields after each behaviour of the engine |
| EngineManager.ExecutionEngineManager.RunOn | services/execution_engine/manager.py:294-379 | one run is charged to the task's engine iff the health check answered healthy, a completion iff a real result came back; no other name is charged |
| EngineManager.ExecutionEngineManager.ExecuteOnEngine | services/execution_engine/manager.py:286-292 | an unknown engine fails the task and changes nothing else |
| EngineManager.ExecutionEngineManager.ExecuteWithFailover | services/execution_engine/manager.py:410-446 | the loop's result and charges equal the model's failover; it completes iff some listed engine can |
| EngineManager.ExecutionEngineManager.AvailableEngines | services/execution_engine/manager.py:565-576 | lists each type of an engine of the wanted type that is enabled and not known to be unhealthy, once, in any order |
| EngineManager.ExecutionEngineManager.FindEngine | services/execution_engine/manager.py:556-563 | the lookup finds the first engine of the type or named after it, and fails iff there is none |
| EngineManager.ExecutionEngineManager.SelectEngine | services/execution_engine/manager.py:524-563 | for some listing of the available types the engine is the one named, or the first of the type ranked best; never a key error; only load balancing is counted, once |
| LogModel.FinishSeen | src/agentic_os/core/execution_log.py:142-187 | queries by task, mission or provider show a finish and need no re-indexing |
| LogModel.FinishSeenInRing | src/agentic_os/core/execution_log.py:142-193 | the bounded deque shows a finish of every record it still holds |
| LogModel.LastAppend | src/agentic_os/core/execution_log.py:82-110 | a deque that holds the last elements of the history, by index, does so after one more append |
| LogModel.Last | src/agentic_os/core/execution_log.py:82 | the last min(n, bound) elements, in order, by index |
| LogModel.Limited | src/agentic_os/core/execution_log.py:178-193 | length and elements of a Python slice, by index, for every limit |
| LogModel.ListedByIndex | src/agentic_os/core/execution_log.py:178-179 | entry i of a listing is the i-th from the end of the history |
| LogModel.FinishedMeans | src/agentic_os/core/execution_log.py:61-76 | each field of a finished record; other records and what the start fixed are untouched |
| LogModel.KeepIndex | src/agentic_os/core/execution_log.py:181-193 | a filter keeps every chosen record behind those chosen before it |
| LogModel.KeepCount | src/agentic_os/core/execution_log.py:181-193 | a filter keeps as many records as were chosen |
| Tally.OccurrencesExact | src/agentic_os/core/execution_log.py:195-199 | the counts are multiplicities |
| LogModel.StatsAddUp | src/agentic_os/core/execution_log.py:195-199 | status counts sum to the reported total iff no record has the status "total" |
| ExecutionLogs.ExecutionRecord.Finish | src/agentic_os/core/execution_log.py:61-76 | sets status, times, duration and outputs |
| ExecutionLogs.ExecutionLog.Start | src/agentic_os/core/execution_log.py:87-140 | appends one record to the history and keeps deque and all three indexes in step with it; with a positive bound the new record is the deque's last |
| ExecutionLogs.ExecutionLog.Finish | src/agentic_os/core/execution_log.py:142-173 | changes exactly the record of that id, seen through every index, or nothing for an unknown id |
| ExecutionLogs.ExecutionLog.Get | src/agentic_os/core/execution_log.py:175-176 | finds the record of an id iff the history has one |
| ExecutionLogs.ExecutionLog.ListAll | src/agentic_os/core/execution_log.py:178-179 | the last starts within the bound, newest first, sliced as Python slices: length and elements by index of the history |
| ExecutionLogs.ExecutionLog.ForTask | src/agentic_os/core/execution_log.py:181-183 | the newest-first filter of the full history, exactly the records of that task, also those the deque has dropped |
| ExecutionLogs.ExecutionLog.ForMission | src/agentic_os/core/execution_log.py:185-187 | the same by mission; nothing for the empty id |
| ExecutionLogs.ExecutionLog.ForProvider | src/agentic_os/core/execution_log.py:189-190 | the newest-first filter of the deque, sliced; only records of that provider, and all of them if the limit allows |
| ExecutionLogs.ExecutionLog.ByStatus | src/agentic_os/core/execution_log.py:192-193 | the newest-first filter of the deque by current status, sliced; only records of that status, and all of them if the limit allows |
| ExecutionLogs.ExecutionLog.Stats | src/agentic_os/core/execution_log.py:195-199 | the number of records of each status, on top of the size under "total" |
| RegistryModel.RegisterExact | services/runtime_discovery/registry.py:29-48 | registering keeps id map and name index inverse iff the name is known under a nonempty id (or the same empty one), or name and id are both new |
| RegistryModel.RegisterMeans | services/runtime_discovery/registry.py:29-48 | an unknown name is stored as it came; a known one keeps id, discovery time and a bound or active status, takes the rest and is seen now; nothing else changes |
| RegistryModel.UpdateMeans | services/runtime_discovery/registry.py:81-90 | an unknown id changes nothing; a known one takes everything but its discovery time and is seen now |
| RegistryModel.OthersMean | services/runtime_discovery/registry.py:50-98 | what a status update and unregistering change, and that nothing else does |
| RegistryModel.UpdateExact | services/runtime_discovery/registry.py:81-90 | an update keeps them inverse iff it does not rename |
| RegistryModel.StepExact | services/runtime_discovery/registry.py:29-98 | every operation keeps them inverse iff it is proper; unregistering and status updates always are |
| RegistryModel.RunExact | services/runtime_discovery/registry.py:29-98 | they are inverse in every state of a run iff every operation was proper where it was made |
| RegistryModel.IdentityKept | services/runtime_discovery/registry.py:29-57 | over every proper run a name keeps its id and discovery time until that id is unregistered |
| RegistryModel.RediscoveryKeepsBinding | services/runtime_discovery/registry.py:31-39 | re-registration adds no id and keeps a bound or active status |
| RegistryModel.FindByNameExact | services/runtime_discovery/registry.py:63-68 | a name finds an item iff that item is registered, bears the name and has a nonempty id |
| RegistryModel.RenameLeavesStaleName | services/runtime_discovery/registry.py:81-90 | a concrete rename after which the old name finds an item that no longer bears it |
| RuntimeRegistries.RuntimeRegistry.Adopt | services/runtime_discovery/registry.py:31-39 | whatever object the caller hands in takes identity, discovery time and binding from the runtime known by its name |
| RuntimeRegistries.RuntimeRegistry.Register | services/runtime_discovery/registry.py:29-48 | the exact new dictionaries and fields for any object handed in; the model's registration whenever the object is not stored already or is stored under the id and name it carries |
| RuntimeRegistries.RuntimeRegistry.Unregister | services/runtime_discovery/registry.py:50-57 | removes the runtime and its name, or reports that there was none |
| RuntimeRegistries.RuntimeRegistry.Update | services/runtime_discovery/registry.py:81-90 | the exact new dictionaries and fields for any object, or refusal of an unknown id; the model's update unless the object is stored under another id than it carries |
| RuntimeRegistries.RuntimeRegistry.UpdateStatus | services/runtime_discovery/registry.py:92-98 | changes status and last-seen time of that runtime object and no other |
| RuntimeRegistries.RuntimeRegistry.Find | services/runtime_discovery/registry.py:63-68 | returns the stored object the model finds by name |
| RuntimeRegistries.RuntimeRegistry.Snapshot | services/runtime_discovery/registry.py:117-130 | counts by status and by type are exact and each sums to the total |
| RuntimeWatchers.DiffDirectory | services/runtime_discovery/watcher.py:158-179 | one directory's changes: each name at most once, with the right verdict |
| RuntimeWatchers.Diff | services/runtime_discovery/watcher.py:149-181 | each changed file once with the right kind, and nothing else |
| RuntimeWatchers.RuntimeWatcher.Poll | services/runtime_discovery/watcher.py:185-207 | stores the snapshot; reports the difference, or nothing after an empty snapshot |
| WatcherModel.SilentIffSame | services/runtime_discovery/watcher.py:165-181 | a report is empty iff every file has the same modification time in both snapshots |
| WatcherModel.ReportKinds | services/runtime_discovery/watcher.py:165-179 | created iff only the current snapshot has the file, deleted iff only the previous one, modified iff both have it with different times |
| WatcherModel.ReportReplays | services/runtime_discovery/watcher.py:149-181 | replaying a report onto the previous files gives the current files |
| WatcherModel.PollReplaysExactly | services/runtime_discovery/watcher.py:191-197 | a poll's report replays iff the previous snapshot had a directory or there are no files now |
| WatcherModel.TelescopesExactly | services/runtime_discovery/watcher.py:185-207 | all reports replayed onto the first snapshot give the current files throughout a run iff no poll was blind |
| WatcherModel.ReadableTelescopes | services/runtime_discovery/watcher.py:185-207 | in particular while every snapshot has a readable directory |
| WatcherModel.BlindPoll | services/runtime_discovery/watcher.py:191-194 | a concrete run whose reports miss a file |

## Left out

- Threads and locks in the container (`RLock`): one operation at a time; a child that uses its parent without the parent's lock is not modelled.
- Factories that call back into the container while they run, and reflection over factory signatures: slots are given with the registration, with the kind of each parameter.
- Fields of a registration that resolution writes (status, chain marks) are kept beside the registration; `singleton_instance`, descriptions and tags are not modelled.
- The default of `register` (`singleton=True` when no lifetime is given): the lifetime is an argument.
- A hint or dependency whose type name is the empty string.
- `try_resolve`, `resolve_all`, `list_registrations` and the counts of the container: thin wrappers that would add only easy members.
- The thirteen other start-up checkers: only their status words reach the pipeline model.
- Text of error messages; errors are constructors of a datatype, and the cycle path is a list of names.
- JSON text, timestamps as text and malformed cache files: an entry is a value that survives the round trip; `make_key` and `create_entry` are not modelled.
- The puts of one publish call may be interleaved with other steps where the source puts several without a pause; a handler that swallows its cancellation is taken to be cancelled again.
- A handler stands for its identity; two live handlers never share one.
- Bus publishing, sessions, benchmarks, telemetry, plans and `cancel_task` of the engine manager; task and result dictionaries.
- Concurrent changes of the registry during one failover call: attempts of one call run back to back, while recorded runs of different calls interleave freely with every other operation.
- Configurations are values: a caller that keeps a configuration object and edits it later is not modelled.
- Infinite latencies and costs are a number above every table entry; costs are in millionths of a dollar; durations are arbitrary reals.
- The custom router and `register_custom`, whose selector is user code.
- ExecutionLogs.ExecutionLog.Start: asks for an id not used before, which the source draws at random; fields the log never queries (agent, runtime, strategy, command, prompt, retries) and bus publishing are omitted.
- Files are identified by directory and name, not by the joined path, so two spellings of one directory count as two; taking a snapshot, callbacks and the polling loop are input and output.
- What a restarted cache holds after a last write that failed (the contents of the last write that did not), and other processes that write the same file.
- ScopeCycles.ReportsTrueExactly: two-way only where names at or below singleton and scoped services are unambiguous, because otherwise the order of needs decides whether a cache hides a name (`ShadowedNames.CachedNameNotReported`); that a report is real without shadowing needs none of this.
- RootSuccess.ResolutionExact: does not say which of two errors is raised when something below the key is both cyclic and unsuppliable, because the first obstacle in plan order decides.
- A registry's listing, search and counting by query.

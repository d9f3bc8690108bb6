# Verified models of parts of the garnet layer

The project models five parts of the garnet layer of Fuchsia and proves what they promise over
unbounded inputs and runs.

- **HTTP network slots** (`HttpScheduler.dfy`, `HttpRuns.dfy`, `HttpService.dfy`, `HttpProgress.dfy`,
  `HttpPipelining.dfy`). The main thread owns a bounded pool of slots and a FIFO of requests; every URL
  loader has its own IO thread and may die at any point. The model is a step system with one main-thread
  task queue and one IO queue per loader, and the service object that takes its steps. The last two files
  say that all slots come back, and exactly which Start calls are safe.
- **Component lifecycle** (`ComponentLifecycle.dfy`, `RunnerCreation.dfy`, `RunnerHub.dfy`). A controller
  request is a linear token that ends as a failure event, a process controller or a runner bridge.
  Runner creation is recursive; a null entry marks a runner under construction. A runner's hub directory
  lists the components it runs.
- **Storage, services and namespaces** (`StorageWatchdog.dfy`, `ServiceDirectory.dfy`,
  `NamespaceBuilder.dfy`, `NamespaceBindings.dfy`). A recursive purge of cache directories, an eager
  snapshot of inherited services, the parallel vectors of a namespace and what its paths are bound to.
- **Debug server** (`Numerals.dfy`, `RspFraming.dfy`, `ThreadIds.dfy`, `ThreadActions.dfy`,
  `ContinueThreads.dfy`, `ThreadList.dfy`, `RunArgs.dfy`, `MonitorCommands.dfy`, `AuxvReply.dfy`,
  `RspServer.dfy`, `CommandReplies.dfy`, `CommandHandlers.dfy`, `ClientPackets.dfy`, `DebugSession.dfy`).
  Framing, codecs, the Stop-notification protocol, the reply to every packet, what a client gets for the
  packets it prints, and whole sessions of the GDB remote serial protocol (GDB manual, appendix "GDB Remote
  Serial Protocol", sections "Overview", "Packets" and "Notification Packets").
- **Trace importers** (`KernelTrace.dfy`, `CpuPerf.dfy`). Incremental per-CPU and per-event state that
  refines definitions over the whole list of records.

Most modules have the same layout: the steps as functions of a `State` value, an invariant that each
step keeps in a lemma of its own, theorems over every run, and a class whose methods update fields in
place and are proved to take the same steps (`View()` after the call is the step function of `View()`
before it).

Results of foreign calls (opening a directory, creating a process, reading memory, the order in which a
hash map yields its keys) are parameters. The theorems hold for all values of them.

## Choices where the source leaves room

- `kMaxSlots` is computed from a constant of another repository; the pool size is a parameter.
- `on_inactive_` is a single cell, so a loader can hold one slot only. Calling Start while an earlier
  request of the same loader was issued and not yet run breaks slot conservation in two ways. With two
  free slots the second grant overwrites the cell and the second inactivity signal calls an empty closure
  (`PipelinedStartsAbort`). With one slot, joining the dying loader returns the slot to the loader's own
  second request and then erases it, so the slot is lost for ever (`OneSlotLeak`, `LostForEver`).
  `StartIsSafeIffDisciplined` gives the exact condition: with a pool of at least one slot, a Start is safe
  if and only if the loader has no request that was issued and not yet run. The theorems over "disciplined"
  runs are over the runs in which every Start meets it.
- `ParseThreadId` reads an index that was never set when a `p` id has no dot. That index is the
  parameter `stale`. `DeterminedIff` says exactly which ids do not depend on it.
- String-to-number conversions belong to another repository; `Numerals` defines them in base 16: an optional
  '-' for signed types and none for unsigned ones, at least one digit, no other character, no overflow.
  `MonitorCommands` does the same in base 10 for the log level.
- The `C` handler takes the address of "sig;addr" together with its semicolon, so the address never
  converts and the form with an address is always refused (`AddressNeverParses`).
- The `D` handler reads the first character of its parameter without asking whether there is one. The
  model treats an empty parameter as the form without a pid, which is the documented meaning.
- The vCont handler has debug assertions that the process is live and attached, and others on "pick one"
  entries. The model follows the code without them, so its theorems do not need them.
- A vCont "continue" whose resume fails falls through to the step case of the switch. The model follows it.
- The server asserts that a frame fits in its buffer of 4096 bytes and does not check. `HandleCommand`
  says exactly which packets get a reply that does not fit: a memory read of more than 2045 bytes; a
  register read, if the register block is larger than that; the first query of a thread list that is too
  long, which needs more than 240 threads (`ShortThreadListFits`); and a read of more than 4090 bytes of
  the auxiliary vector at an offset behind its end and within its array.
- That last case exists because the length of an auxv reply is computed in 64-bit arithmetic as the end
  less the offset, and the offset is only compared with the size of the array (`AuxvReply.LongIff`). Also,
  the copy starts at entry `offset` and not at byte `offset`, so a reply holds what was asked for, whatever
  the vector holds, only at offset 0 (`CopiedIsWantedIff`). What lies behind the vector is a parameter.
- The source says that nothing else is exchanged until a drain completes. The pending notification keeps
  its timer during the drain, so it can be sent once more after the peer acknowledged it
  (`DrainIsInterrupted`). `OrderedIff` says exactly when the order is kept.
- The `G` handler goes on to write the registers only if the given ones could not be set, as its test is the
  wrong way round. `HandleWriteRegisters` follows the code.
- A `c` packet with an address may set the program counter and then fail to resume the thread; the reply is
  an error and the program counter stays set (`FailedContinueMovesPc`).
- The number of log severities belongs to another repository; it is 4 here, as the help text suggests.
- A component id has ':' for each '/' of the resource path, so two resources of one package that differ only
  in that share their storage (`SlashAndColonCollide`). `SharedStorageIff` says exactly who shares.
- `readdir` yields "." and the children in any order, and no "..", which the purge would not skip.
- A notification is known by the position at which it was queued, not by its address.
- `PushDirectoryFromChannel` asserts that its path is free. The builder records whether every such
  assertion held; `PackageNamespaceOk` says exactly when it does.
- The comment on `AddService` says a child's service takes priority over its parent's. That holds for
  services added before the parent is set; `RunLookup` gives the rule for every order of calls.
- `ExtractParameters` has a debug assertion that fails on the one-letter packets `q` and `Q`. The model
  follows the code after it, which finds no known prefix.
- With no process, the `H` handler rejects thread 0 and accepts any other, although its log lines say
  the opposite. The model follows the code.

## Model

| member | source | states |
|---|---|---|
| HttpRuns.SlotsConserved | bin/http/http_service_impl.cc:186-206 | after every disciplined run, free slots plus loaders holding `on_inactive_` equal the pool size, and no assertion has failed, no empty closure was called, no destroyed container was used |
| HttpRuns.ServedInOrder | bin/http/http_service_impl.cc:186-206 | requests are granted in the order in which they arrived, and a request waits only while no slot is free |
| HttpRuns.ReturnedExactlyOnce | bin/http/http_service_impl.cc:63-111 | every granted slot is either held by the live loader it was granted to or has been returned exactly once, on whichever of the three return paths |
| HttpScheduler.ReturnKeepsInv | bin/http/http_service_impl.cc:196-206 | returning a slot, with its cascade through dead requesters, keeps the invariant; the cascade terminates by the length of the wait queue |
| HttpScheduler.ServeKeepsInv | bin/http/http_service_impl.cc:73-98 | handing a slot to a requester, alive or dead, keeps the invariant |
| HttpScheduler.SlotRequestKeepsInv | bin/http/http_service_impl.cc:186-194 | a slot request that reaches the main thread keeps the invariant, granted or queued |
| HttpScheduler.InactiveKeepsInv | bin/http/http_service_impl.cc:86-96 | the inactivity signal returns the slot and keeps the invariant |
| HttpScheduler.EraseCommutes | bin/http/http_service_impl.cc:102-111 | erasing a joined loader after its slot was returned is the same as erasing it before |
| HttpScheduler.JoinKeepsInv | bin/http/http_service_impl.cc:102-111 | joining a stopped loader returns the slot it may hold and keeps the invariant |
| HttpRuns.NextKeepsInv | bin/http/http_service_impl.cc:63-133 | every enabled step of a disciplined run keeps the invariant |
| HttpRuns.RunKeepsInv | bin/http/http_service_impl.cc:63-133 | every disciplined run keeps the invariant |
| HttpProgress.QuiescentPoolIsFull | bin/http/http_service_impl.cc:161-206 | once no task is left on any thread, all slots are free and nobody waits |
| HttpProgress.InternalStepsUseWork | bin/http/http_service_impl.cc:63-133 | steps that no client causes strictly decrease a measure, so they cannot go on for ever |
| HttpProgress.StuckIsQuiescent | bin/http/http_service_impl.cc:63-133 | no internal step is possible exactly when no task is left on any thread |
| HttpProgress.EveryMaximalRunDrains | bin/http/http_service_impl.cc:63-206 | every run of internal steps from a reachable state has at most as many steps as the measure says, and if it cannot be extended it ends with a full pool and nobody waiting |
| HttpProgress.DrainsToFullPool | bin/http/http_service_impl.cc:63-206 | such a maximal run exists from every reachable state |
| HttpPipelining.StartIsSafeIffDisciplined | bin/http/http_service_impl.cc:63-111 | for every pool of at least one slot, every state a disciplined run reaches and every enabled Start: all disciplined continuations conserve the slots if and only if the loader has no request issued and not yet run |
| HttpPipelining.EarlyStartLeaks | bin/http/http_service_impl.cc:63-111 | from every state in which a bound loader has an outstanding request, a second Start has a continuation that loses a slot |
| HttpPipelining.DoubledLeaks | bin/http/http_service_impl.cc:73-111 | the continuation, for any number of other loaders, which are disconnected and joined one by one |
| HttpPipelining.LastLoaderLeaks | bin/http/http_service_impl.cc:102-111 | with one loader left and one slot, joining it gives its slot to its own waiting request and erases it |
| HttpPipelining.OneSlotLeak | bin/http/http_service_impl.cc:102-111 | a run from the start with one slot that ends with no loader, no task and no free slot |
| HttpPipelining.LostForEver | bin/http/http_service_impl.cc:186-194 | after that no run of any length serves another request |
| HttpPipelining.TwoRunsAbort | bin/http/http_service_impl.cc:80-97 | a loader with two granted requests to run and one cell leads to a call of an empty closure |
| HttpPipelining.PipelinedStartsAbort | bin/http/http_url_loader_impl.cc:32-39 | two pipelined Start calls on one loader with two free slots reach that state |
| HttpService.HttpServiceImpl.constructor | bin/http/http_service_impl.cc:161-164 | the service starts with all slots free |
| HttpService.HttpServiceImpl.OnSlotReturned | bin/http/http_service_impl.cc:196-206 | frees a slot or passes it to the request at the head of the queue, and takes the whole cascade of the specified return |
| HttpService.HttpServiceImpl.Serve | bin/http/http_service_impl.cc:74-98 | stores the closure and posts the request to the IO loop, or gives the slot back at once if the container died |
| HttpService.HttpServiceImpl.RequestNetworkSlot | bin/http/http_service_impl.cc:186-194 | grants or queues |
| HttpService.HttpServiceImpl.JoinAndNotify | bin/http/http_service_impl.cc:102-111 | returns a held slot, then erases the loader |
| HttpService.HttpServiceImpl.RunMainTask | bin/http/http_service_impl.cc:66-99 | one posted main-thread task |
| HttpService.HttpServiceImpl.RunIoTask | bin/http/http_url_loader_impl.cc:32-39 | one IO task: start, or run the request and signal inactivity |
| HttpService.HttpServiceImpl.CreateURLLoader | bin/http/http_service_impl.cc:173-184 | adds a loader with its start task |
| HttpService.HttpServiceImpl.Start | bin/http/http_service_impl.cc:63-67 | a client call posts a slot request |
| HttpService.HttpServiceImpl.StopOnIOThread | bin/http/http_service_impl.cc:128-133 | drops the binding, quits the loop and posts the join |
| ComponentLifecycle.AtMostOneEvent | bin/appmgr/component_controller_impl.cc:41-102 | on every creation path and run a request gets at most one OnTerminated, and none while it is alive |
| ComponentLifecycle.ExactlyOneEvent | bin/appmgr/component_controller_impl.cc:209-333 | a life that is over was announced exactly once, unless and only unless the owner destroyed a process controller after Kill cleared its job and before the process was seen to end |
| ComponentLifecycle.KilledThenDestroyedHappens | bin/appmgr/component_controller_impl.cc:209-234 | a run that ends silently in that way |
| ComponentLifecycle.EventTellsCause | bin/appmgr/realm.cc:547-608 | the one event carries the code and reason of the step that ended the life, for every failure branch, exit, bridge event and destruction |
| ComponentLifecycle.LaunchTells | bin/appmgr/realm.cc:547-608 | a launch ends as an invalid URL, a missing runner, a package being loaded or a bridge, each exactly for its URLs, with the reason reported |
| ComponentLifecycle.PackageTells | bin/appmgr/realm.cc:586-948 | a loaded package ends as not found, as an internal error, as a failed process with the default reason, as a process or as a bridge, each exactly for its packages |
| ComponentLifecycle.NextKeepsInv | bin/appmgr/component_controller_impl.cc:209-333 | each step keeps what the history says about job, callback, handler and reason |
| ComponentLifecycle.EndsInLastStep | bin/appmgr/component_controller_impl.cc:268-333 | nothing follows the end of a life |
| ComponentLifecycle.ComponentRequestWrapper.constructor | bin/appmgr/component_controller_impl.cc:41-48 | a new wrapper is active with defaults (-1, UNKNOWN) |
| ComponentLifecycle.ComponentRequestWrapper.MoveFrom | bin/appmgr/component_controller_impl.cc:62-68 | move assignment takes the fields, clears the source's `active_` and leaves its own |
| ComponentLifecycle.ComponentRequestWrapper.Move | bin/appmgr/component_controller_impl.cc:57-60 | the token is in the new wrapper and no longer in the old one |
| ComponentLifecycle.ComponentRequestWrapper.SetReturnValues | bin/appmgr/component_controller_impl.cc:70-74 | sets what a failure will report |
| ComponentLifecycle.ComponentRequestWrapper.Extract | bin/appmgr/component_controller_impl.h:51-61 | hands the request out once |
| ComponentLifecycle.ComponentRequestWrapper.Destroy | bin/appmgr/component_controller_impl.cc:50-55 | reports the failure if and only if active |
| ComponentLifecycle.ComponentControllerImpl.Kill | bin/appmgr/component_controller_impl.cc:227-234 | clears the job and sends nothing |
| ComponentLifecycle.ComponentControllerImpl.Handler | bin/appmgr/component_controller_impl.cc:269-283 | sends the exit code once, then the object is destroyed silently |
| ComponentLifecycle.ComponentControllerImpl.Destroy | bin/appmgr/component_controller_impl.cc:209-225 | sends (-1, UNKNOWN) if job and callback are still there |
| ComponentLifecycle.ComponentBridge.OnRemoteTerminated | bin/appmgr/component_controller_impl.cc:301-312 | forwards the event, disarms and destroys the bridge |
| ComponentLifecycle.ComponentBridge.OnRemoteError | bin/appmgr/component_controller_impl.cc:318-322 | reports (-1, UNKNOWN) if still armed |
| ComponentLifecycle.ComponentBridge.SetTerminationReason | bin/appmgr/component_controller_impl.cc:341-344 | sets the reason a destruction reports |
| ComponentLifecycle.ComponentBridge.Destroy | bin/appmgr/component_controller_impl.cc:329-333 | reports the stored reason if still armed |
| ComponentLifecycle.CreateComponent | bin/appmgr/realm.cc:547-608 | the request ends in the state its launch outcome calls for; it fails exactly for an invalid URL or a missing runner, with the event already sent |
| ComponentLifecycle.CreateComponentWithRunner | bin/appmgr/realm.cc:680-713 | a missing runner is reported, otherwise the request is in a bridge |
| ComponentLifecycle.OnPackageLoaded | bin/appmgr/realm.cc:586-601 | a process or a bridge exactly for the packages that allow it; a package that is not there is reported as PACKAGE_NOT_FOUND |
| ComponentLifecycle.OnLoadDropped | bin/appmgr/realm.cc:586-601 | dropping the loader's closure reports (-1, UNKNOWN) |
| ComponentLifecycle.CreateComponentFromPackage | bin/appmgr/realm.cc:715-908 | each failing branch reports once with its reason; otherwise a process or a bridge holds the request |
| ComponentLifecycle.CreateElfBinaryComponent | bin/appmgr/realm.cc:910-948 | a job or process that cannot be created reports the defaults |
| RunnerCreation.CreatedIsOrbit | bin/appmgr/realm.cc:984-1012 | the runners one request creates are the orbit of the runner under the scheme map, without repetition, up to the first that exists, repeats or needs no runner |
| RunnerCreation.OnlyInnermostFails | bin/appmgr/realm.cc:680-702 | every created runner but the innermost gets its runner |
| RunnerCreation.CycleFailsInnermost | bin/appmgr/realm.cc:1004-1009 | the innermost launch fails with RUNNER_FAILED exactly when the orbit runs into a runner under construction |
| RunnerCreation.CycleOnStack | bin/appmgr/realm.cc:1004-1009 | a name found on the stack is reached from itself in the runner graph |
| RunnerCreation.LaunchIs | bin/appmgr/realm.cc:554-607 | a URL is invalid exactly without a launcher in the scheme map, loads a package exactly for the launcher "package", and else needs the runner that is named |
| RunnerCreation.Realm.RecursiveLookupIsNearest | bin/appmgr/realm.cc:1014-1023 | recursive lookup gives the entry of the nearest realm that has one, through realms that allow parent runners, or null if there is none |
| RunnerCreation.Realm.GetOrCreateRunner | bin/appmgr/realm.cc:984-1012 | terminates; null is returned exactly for a name on the construction stack; the result is what recursive lookup then finds; exactly the orbit is added, each with a new holder; null entries are exactly the stack |
| RunnerCreation.Realm.CreateComponent | bin/appmgr/realm.cc:547-608 | how a launch by URL ends while given runners are under construction, in terms of the scheme map, and which runners it creates |
| RunnerCreation.RunnerHolder.constructor | bin/appmgr/runner_holder.cc:24-37 | constructing a holder launches its URL and creates the runners below it |
| RunnerCreation.Realm.EmplaceRunner | bin/appmgr/realm.cc:991-1002 | the placeholder is set before and replaced after the recursive construction |
| RunnerCreation.Realm.OnRunnerTerminated | bin/appmgr/realm.cc:999-1002 | a terminated runner's entry is erased |
| RunnerHub.HubListsTheBridges | bin/appmgr/runner_holder.cc:68-131 | in any order of start, late creation, extraction, expiry and cleanup, instance ids are pairwise distinct, no missing directory is dereferenced, and while the controller is alive its hub lists exactly the bridges, under the runner's job id |
| RunnerHub.BridgesAreTheComponents | bin/appmgr/runner_holder.cc:82-131 | after any run the bridges are those of the components started and neither extracted nor cleaned up, each with the label and the number of its start |
| RunnerHub.AgreesIsUnique | bin/appmgr/hub/hub.cc:37-69 | only one directory agrees with a set of bridges |
| RunnerHub.InsertAgrees | bin/appmgr/hub/hub.cc:37-53 | adding a bridge's entry keeps the directory in agreement |
| RunnerHub.RemoveAgrees | bin/appmgr/hub/hub.cc:55-69 | removing an entry, and its label with the last one, keeps the directory in agreement |
| RunnerHub.IdsAreDistinct | bin/appmgr/runner_holder.cc:95-101 | decimal numbers of a 64-bit counter are distinct for up to 2^64 starts |
| RunnerHub.RunnerHolder.CreateComponentCallback | bin/appmgr/runner_holder.cc:68-80 | the loop shows every bridge already started, in any order of the hash map |
| RunnerHub.RunnerHolder.StartComponent | bin/appmgr/runner_holder.cc:82-114 | adds a bridge with the next id and shows it if the controller is alive |
| RunnerHub.RunnerHolder.ExtractComponent | bin/appmgr/runner_holder.cc:116-131 | removes a bridge and its entry, or does nothing for an unknown key |
| RunnerHub.RunnerHolder.Cleanup | bin/appmgr/runner_holder.cc:58-66 | forgets the controller and drops all bridges |
| StorageWatchdog.ComponentCacheIsEmptied | bin/appmgr/storage_watchdog.cc:43-91 | for every realm path of valid labels and every component, the purge empties that component's isolated cache directory and keeps the directory |
| StorageWatchdog.RealmDirectoriesSurvive | bin/appmgr/storage_watchdog.cc:55-74 | no realm directory and no directory of nested realms is removed |
| StorageWatchdog.PersistentDataSurvives | bin/appmgr/appmgr.cc:27-36 | a purge of the cache, which lies inside the data directory, touches nothing in any component's persistent storage |
| StorageWatchdog.PurgeIsIdempotent | bin/appmgr/storage_watchdog.cc:43-91 | purging the purged tree gives the same tree |
| StorageWatchdog.FileSystem.PurgeTwice | bin/appmgr/storage_watchdog.cc:43-91 | two calls of the purge leave what the first one left, if no operation fails |
| StorageWatchdog.ComponentIdIsAName | bin/appmgr/realm.cc:193-204 | a component id has ':' and '#' and no '/', so it is one path component and not "r" |
| StorageWatchdog.SharedStorageIff | bin/appmgr/realm.cc:193-204 | for hosts, packages and variants without ':' and '#': two component ids are equal if and only if host, package and variant are and the resource paths are up to ':' for '/' |
| StorageWatchdog.SlashAndColonCollide | bin/appmgr/realm.cc:202 | the resources "a/b" and "a:b" as an example of two that share an id |
| StorageWatchdog.SplitRealmPath | bin/appmgr/realm.cc:431-432 | a nested realm's path is its parent's followed by "r" and the label |
| StorageWatchdog.SplitIsolatedPath | bin/appmgr/realm.cc:1033-1045 | an isolated path is the realm's path followed by the component id |
| StorageWatchdog.PurgeableBelowRealm | bin/appmgr/realm.cc:168-188 | with valid labels, what is purged below a realm does not depend on the labels above it |
| StorageWatchdog.FileSystem.DeleteDirentInFd | bin/appmgr/storage_watchdog.cc:21-39 | whichever operations fail, removes only the entry and what is below it, and all of that if none fails |
| StorageWatchdog.FileSystem.EmptyDirectory | bin/appmgr/storage_watchdog.cc:80-87 | removes only what is strictly inside, and all of it if no operation fails |
| StorageWatchdog.FileSystem.PurgeCacheIn | bin/appmgr/storage_watchdog.cc:43-91 | whichever operations fail, removes only purgeable paths; if none fails the tree is exactly the purged tree |
| StorageWatchdog.FileSystem.PurgeEntry | bin/appmgr/storage_watchdog.cc:51-88 | one entry of the outer loop: nested realms, a component directory, or something else that is kept |
| StorageWatchdog.FileSystem.PurgeRealmsIn | bin/appmgr/storage_watchdog.cc:55-74 | the inner loop over nested realms |
| StorageWatchdog.FileSystem.PurgeCache | bin/appmgr/storage_watchdog.cc:155-167 | purges the configured directory, or does nothing if it is missing |
| ServiceDirectory.SnapshotAgrees | bin/appmgr/service_provider_dir_impl.cc:55-79 | for every chain whose parents are filled before they are set, the eager snapshot gives what recursive lookup gives |
| ServiceDirectory.SnapshotIsNearest | bin/appmgr/service_provider_dir_impl.cc:55-79 | a name resolves to a service if and only if that is the nearest definition and every level from there down admits the name |
| ServiceDirectory.ResolveIsNearest | bin/appmgr/namespace.cc:67-95 | the same for recursive lookup itself |
| ServiceDirectory.ResolvesIff | bin/appmgr/service_provider_dir_impl.h:68-71 | a name has a service exactly when its nearest definition is reached through levels that have no whitelist or one with the name in it |
| ServiceDirectory.HiddenByWhitelist | bin/appmgr/service_provider_dir_impl.cc:66-79 | a whitelist without the name hides every service of that name at or above it, if no nearer level defines one |
| ServiceDirectory.FirstAddWins | bin/appmgr/service_provider_dir_impl.cc:66-79 | a name keeps the service it had, else gets the first admitted one added |
| ServiceDirectory.AddAllKeepsOrder | bin/appmgr/service_provider_dir_impl.cc:61-63 | additions extend the list in order with exactly the admitted first occurrences of new names |
| ServiceDirectory.LateAdditions | bin/appmgr/service_provider_dir_impl.cc:55-64 | for any additions made later at any levels of a chain: the directory and one that followed its parents differ on a name exactly when no level had it before, the directory admits it, and a late addition above reaches it that is not the directory's own |
| ServiceDirectory.LiveLookup | bin/appmgr/service_provider_dir_impl.cc:55-79 | what a directory that followed its parents would find |
| ServiceDirectory.LateFindIsHighest | bin/appmgr/service_provider_dir_impl.cc:55-79 | among late additions the one highest in the chain that every level below it admits wins |
| ServiceDirectory.LateFindNone | bin/appmgr/service_provider_dir_impl.cc:55-79 | if none is found, none reaches the directory |
| ServiceDirectory.RunIsFirstAddWins | bin/appmgr/service_provider_dir_impl.cc:55-79 | after any run of calls a directory holds what was offered, first add winning, and only the first parent counts |
| ServiceDirectory.RunLookup | bin/appmgr/service_provider_dir_impl.cc:123-130 | lookup after any run gives the first service offered under the name, or none if a whitelist lacks it |
| ServiceDirectory.ServiceProviderDirImpl.constructor | bin/appmgr/service_provider_dir_impl.cc:42-51 | starts empty with its whitelist |
| ServiceDirectory.ServiceProviderDirImpl.AddService | bin/appmgr/service_provider_dir_impl.cc:66-79 | the name is there afterwards exactly if it was, or there is no whitelist, or it is in it; directory, handle list and name set stay in agreement |
| ServiceDirectory.ServiceProviderDirImpl.SetParent | bin/appmgr/service_provider_dir_impl.cc:55-64 | the loop adds all of the parent's handles, once |
| ServiceDirectory.ServiceProviderDirImpl.Lookup | bin/appmgr/service_provider_dir_impl.cc:123-130 | finds the first handle of that name |
| ServiceDirectory.ServiceProviderDirImpl.ConnectToService | bin/appmgr/service_provider_dir_impl.cc:86-103 | serves what Lookup finds, and nothing for a name that a whitelist lacks |
| ServiceDirectory.NewNamespace | bin/appmgr/namespace.cc:22-95 | built-in, additional and inherited services form the snapshot of the extended chain |
| NamespaceBuilder.PackageNamespaceOk | bin/appmgr/realm.cc:858-893 | for a component from a package the assertion of the unguarded push never fails if and only if "deprecated-shell" is listed at most once |
| NamespaceBuilder.ShellNamespaceOk | bin/appmgr/realm.cc:615-620 | for a shell it never fails |
| NamespaceBuilder.OkIsDistinct | bin/appmgr/namespace_builder.cc:182-189 | the assertions held exactly when no path occurs twice |
| NamespaceBuilder.BoundToFirstSource | bin/appmgr/namespace_builder.cc:168-180 | a path is bound to the first of its sources that could be opened |
| NamespaceBuilder.UnboundHasNoSource | bin/appmgr/namespace_builder.cc:168-180 | a path is missing exactly when none of its sources could be opened |
| NamespaceBuilder.SandboxRegular | bin/appmgr/namespace_builder.cc:75-162 | a sandbox pushes "/hub" unguarded once per listed shell feature, and its guarded pushes never use a path that is pushed unguarded |
| NamespaceBindings.DataIsIsolated | bin/appmgr/namespace_builder.cc:101-105 | with isolated persistent storage that opens, "/data" is that storage, whatever the other features are |
| NamespaceBindings.CacheIsIsolated | bin/appmgr/namespace_builder.cc:116-118 | the same for "/cache" and isolated cache storage |
| NamespaceBindings.MiscIsShared | bin/appmgr/namespace_builder.cc:107-114 | the same for "/misc" and the miscellaneous storage |
| NamespaceBindings.NoStorageUnasked | bin/appmgr/namespace_builder.cc:101-158 | a component that asks for no such storage, is no shell and is passed none has none |
| NamespaceBindings.ChannelsAreBound | bin/appmgr/realm.cc:858-893 | "/pkg", "/svc" and, for a shell, "/hub" are bound to their own channels |
| NamespaceBindings.FlatNeverReplaces | bin/appmgr/namespace_builder.cc:31-37 | a directory passed in never replaces one that is there without it |
| NamespaceBindings.SandboxMapsOntoItself | bin/appmgr/namespace_builder.cc:75-162 | every directory of a sandbox is the hub, is offered under its own name, or is one of eight that have another name |
| NamespaceBindings.ListedIsOffered | bin/appmgr/namespace_builder.cc:79-99 | every listed path is offered under its own name, except all of "/dev/class"; "deprecated-data" among the system paths means "/system/data" |
| NamespaceBindings.FeatureIsOffered | bin/appmgr/namespace_builder.cc:120-158 | every feature that stands for a directory is offered |
| NamespaceBindings.OfferedIsBound | bin/appmgr/namespace_builder.cc:168-180 | an offer that opens binds its path |
| NamespaceBuilder.Builder.PushDirectoryFromChannel | bin/appmgr/namespace_builder.cc:182-189 | unguarded push; types, handles, paths and pool stay aligned with index i at position i |
| NamespaceBuilder.Builder.AddDirectoryIfNotPresent | bin/appmgr/namespace_builder.cc:51-55 | push unless the path is taken |
| NamespaceBuilder.Builder.PushDirectoryFromPathAs | bin/appmgr/namespace_builder.cc:168-180 | push unless the path is taken or the source cannot be opened |
| NamespaceBuilder.Builder.AddSandbox | bin/appmgr/namespace_builder.cc:75-162 | makes exactly the sandbox's offers, in order |
| NamespaceBuilder.Builder.AddFeature | bin/appmgr/namespace_builder.cc:120-158 | makes exactly the feature's offers, in order |
| NamespaceBuilder.Builder.AddConfigData | bin/appmgr/namespace_builder.cc:43-49 | offers the package's configuration once per listed feature |
| NamespaceBuilder.Builder.AddFlatNamespace | bin/appmgr/namespace_builder.cc:31-37 | offers the custom entries, or none if the lists differ in length |
| NamespaceBuilder.Builder.Build | bin/appmgr/namespace_builder.cc:191-202 | the result is the built entries with aligned indices, and the pool is released |
| NamespaceBuilder.Builder.BuildForRunner | bin/appmgr/namespace_builder.cc:204-217 | the result pairs each path with its handle |
| NamespaceBuilder.BuildPackageNamespace | bin/appmgr/realm.cc:858-893 | the whole call sequence for a package: aligned, and duplicate-free exactly when the assertions held |
| NamespaceBuilder.BuildShellNamespace | bin/appmgr/realm.cc:615-620 | the whole call sequence for a shell: aligned and duplicate-free |
| Numerals.ByteRoundTrip | lib/debugger_utils/util.cc:49-65 | two-digit lower-case hex decodes to the byte |
| Numerals.StringRoundTrip | lib/debugger_utils/util.cc:67-111 | hex strings decode to the bytes |
| RspFraming.FindUnescapedChar | bin/debugserver/util.cc:79-109 | the scan finds the first occurrence preceded by an even run of '}', or reports that there is none |
| RspFraming.VerifyPacket | bin/debugserver/util.cc:113-183 | accepts exactly the packets that carry a payload and returns that payload |
| RspFraming.FrameRoundTrip | bin/debugserver/server.cc:230-252 | the '$' frame of a payload with no unescaped '#' and no open escape, after any prefix with no unescaped '$' and no open escape, carries that payload |
| RspFraming.PayloadShape | bin/debugserver/util.cc:113-183 | a packet is accepted if and only if it is such a prefix, '$', payload, '#' and the matching checksum |
| RspFraming.PayloadUnique | bin/debugserver/util.cc:113-183 | a packet can be cut into these parts in one way only |
| RspFraming.ChecksumIsSum | bin/debugserver/server.cc:243-245 | the running checksum is the sum of all characters modulo 256 |
| RspFraming.NotificationIsNoPacket | bin/debugserver/server.cc:238 | a notification starts with '%' and does not verify as a packet |
| RspFraming.WriteFrame | bin/debugserver/server.cc:230-252 | the outgoing buffer holds the frame |
| ThreadIds.ParseThreadId | bin/debugserver/util.cc:29-70 | the scanning loop computes the specified parse |
| ThreadIds.ThreadIdRoundTrip | bin/debugserver/util.cc:72-77 | an encoded id parses to a present pid and the same pid and tid if and only if both are below 2^63 |
| ThreadIds.PairOfNumerals | bin/debugserver/util.cc:44-69 | a 'p' id splits at its first dot |
| ThreadIds.DeterminedIff | bin/debugserver/util.cc:29-70 | the bytes alone determine the result if and only if they are empty, do not start with 'p', have a dot after it, or have no number after it |
| ThreadIds.NoDotDependsOnStaleIndex | bin/debugserver/util.cc:57-62 | "p12" as an example: two values of the unset index give two results |
| ThreadActions.ThreadActionList.constructor | bin/debugserver/thread_action_list.cc:78-143 | the scanning loop computes the specified parse of a vCont list |
| ThreadActions.ThreadActionList.GetAction | bin/debugserver/thread_action_list.cc:145-155 | the action of the first entry that contains the thread, else the default |
| ThreadActions.ListRoundTrip | bin/debugserver/thread_action_list.cc:78-143 | printing any well-formed action list and parsing it gives the same ordered entries and default |
| ThreadActions.ValidParseIsWellFormed | bin/debugserver/thread_action_list.cc:119-128 | every valid parse satisfies the constraints on ids |
| ContinueThreads.ResumeAll | bin/debugserver/cmd_handler.cc:1187-1218 | the loop makes exactly the specified calls on the threads, in order |
| ContinueThreads.MovesOnce | bin/debugserver/cmd_handler.cc:1187-1218 | one vCont moves each thread at most once |
| ContinueThreads.MovesInOrder | bin/debugserver/cmd_handler.cc:1187-1218 | threads are moved in the order in which they are listed |
| ContinueThreads.ResumedIff | bin/debugserver/cmd_handler.cc:1196-1206 | a thread is resumed exactly when its action is continue, it is new or in an exception and resuming succeeds |
| ContinueThreads.SteppedIff | bin/debugserver/cmd_handler.cc:1187-1218 | a thread is stepped exactly when it is stopped in an exception, stepping succeeds and its action is a step, or a continue whose resume failed |
| ContinueThreads.DefaultActions | bin/debugserver/cmd_handler.cc:1129-1223 | what "c" and "s" alone do to every thread |
| RunArgs.BuildArgvFor_vRun | bin/debugserver/cmd_handler.cc:84-107 | the splitting loop decodes the pieces between semicolons |
| RunArgs.ArgsRoundTrip | bin/debugserver/cmd_handler.cc:84-107 | joining and splitting returns the same vector if and only if it is empty or its last argument is not |
| RunArgs.ArgsReadBack | bin/debugserver/cmd_handler.cc:84-107 | what comes back otherwise: an empty last argument is lost |
| RspServer.TransmittedInOrder | bin/debugserver/server.cc:265-277 | over every interleaving, events transmitted for the first time followed by the queue equal the events queued, in order, and a non-empty queue implies a pending notification |
| RspServer.WireFollowsProtocol | bin/debugserver/server.cc:321-346 | notifications open and close in order, and the wire tells which is pending: "OK" is sent exactly when the pending one is retired; the open one may be repeated at any time |
| RspServer.OrderedIff | bin/debugserver/server.cc:286-346 | over every run, no notification is sent between the first stop reply and the end of a drain (responses to commands apart, which are not part of it) if and only if the timer of the pending notification never fires in between |
| RspServer.ReachedKeepsOrderIff | bin/debugserver/server.cc:286-346 | in every state a run reaches with its wire still in that order, an event keeps the order if and only if it is not that timer firing in a drain |
| RspServer.DrainCanBeInterrupted | bin/debugserver/server.cc:321-343 | in every drain under way that timer is armed and breaks the order if it fires |
| RspServer.DrainIsInterrupted | bin/debugserver/server.cc:286-298 | a run from the start in which it does |
| RspServer.PendingIsTimed | bin/debugserver/server.cc:279-300 | a pending notification has exactly one timer |
| RspServer.RetiredIsNeverResent | bin/debugserver/server.cc:286-298 | a notification handed over in a drain, or whose drain ended, is never sent again |
| RspServer.NextKeepsInv | bin/debugserver/server.cc:302-363 | each event keeps the invariant |
| DebugSession.AnswersAreOnTheWire | bin/debugserver/server.cc:302-363 | over every session the wire holds, in order: for each command its reply, an empty one if unsupported and none for a program started; for each vStopped the next waiting event or "OK"; and '+' or '-' for each packet |
| DebugSession.OneResponsePerCommand | bin/debugserver/server.cc:302-363 | over every session the responses on the wire are as many as the verified packets other than vStopped, less the programs started by vRun |
| DebugSession.OneFramePerStopAck | bin/debugserver/server.cc:321-346 | over every session the stop replies and drain ends on the wire are as many as the verified vStopped packets that found a notification pending |
| DebugSession.PeerReadsResponses | bin/debugserver/server.cc:230-252 | in a session without auxv reads, checking the frame of any response gives back that response |
| DebugSession.SessionIsRun | bin/debugserver/server.cc:302-363 | every session is a run of the notification protocol, so its theorems hold of sessions |
| DebugSession.Server.QueueNotification | bin/debugserver/server.cc:118-129 | queues and tries to post |
| DebugSession.Server.TryPostNextNotification | bin/debugserver/server.cc:265-277 | posts only if nothing is pending |
| DebugSession.Server.OnTimeout | bin/debugserver/server.cc:286-298 | resends only the notification the timer was set for |
| DebugSession.Server.OnBytesRead | bin/debugserver/server.cc:302-363 | acknowledges with the verdict, then drains or lets the command handler answer; its steps are those of a session |
| DebugSession.Server.OnStopAck | bin/debugserver/server.cc:321-346 | sends the next waiting notification, or "OK" and retires the pending one |
| DebugSession.Server.Route | bin/debugserver/server.cc:348-363 | the texts given to the callback go on the wire in order, followed by one empty response exactly if the packet was not handled |
| CommandHandlers.CommandHandler.HandleCommand | bin/debugserver/cmd_handler.cc:116-175 | for all packets and states: true is returned exactly for supported packets; false means no reply and true exactly one, except a successful vRun; the text of the reply, the calls that succeeded, the threads moved and what is remembered are those specified |
| CommandReplies.FitsIff | bin/debugserver/server.cc:230-232 | exactly which replies do not fit in a frame |
| CommandReplies.PlainUnlessAuxv | bin/debugserver/server.cc:230-252 | every reply but a binary auxv one needs no escapes |
| CommandReplies.OkIffActed | bin/debugserver/cmd_handler.cc:116-175 | a command that acts on the process is answered "OK" exactly when it acted |
| CommandHandlers.CommandHandler.HandleControl | bin/debugserver/cmd_handler.cc:116-175 | the reply, calls and moves of the packets that can change the process |
| CommandReplies.NoProcessNoEffect | bin/debugserver/cmd_handler.cc:116-175 | without a process no packet has an effect |
| CommandHandlers.CommandHandler.HandleSelectThread | bin/debugserver/cmd_handler.cc:448-539 | unsupported, with no reply, exactly for other letters and for ids with a process; otherwise "OK" or the error of the first test that fails |
| ClientPackets.SelectIff | bin/debugserver/cmd_handler.cc:448-539 | when "Hg" with a printed id is answered "OK", and else E01 |
| CommandHandlers.CommandHandler.HandleContinue | bin/debugserver/cmd_handler.cc:191-262 | which calls are made, and "OK" exactly when the thread resumed or the process started, else the error |
| ClientPackets.ContinueResumesOrStarts | bin/debugserver/cmd_handler.cc:236-261 | "c" resumes the current thread of the attached process or starts a process without one |
| ClientPackets.ContinueAtAddress | bin/debugserver/cmd_handler.cc:205-241 | "c" with a printed address moves the program counter first |
| CommandReplies.FailedContinueMovesPc | bin/debugserver/cmd_handler.cc:221-241 | a thread that cannot be resumed keeps the program counter it was given |
| CommandHandlers.CommandHandler.HandleContinueWithSignal | bin/debugserver/cmd_handler.cc:264-342 | "OK" and a resumed thread exactly when the attached process has a current thread with the given signal and no address is given; with an address and everything else in order, error 22 |
| ClientPackets.SignalMustMatch | bin/debugserver/cmd_handler.cc:264-342 | "C" with a printed signal resumes exactly if that signal stopped the thread |
| CommandReplies.AddressNeverParses | bin/debugserver/cmd_handler.cc:306-318 | the address text still has its semicolon and is never a number |
| CommandReplies.SignalAtAddressIsRefused | bin/debugserver/cmd_handler.cc:306-318 | "C5;1000" as an example: the signal converts, the address text does not, the same text without the semicolon would |
| CommandHandlers.CommandHandler.HandleReadMemory | bin/debugserver/cmd_handler.cc:541-580 | the bytes in hex, or the error of the first test that fails |
| ClientPackets.MemoryIsRead | bin/debugserver/cmd_handler.cc:541-580 | the reply to a printed address and length decodes to the bytes from that address on, in order |
| ClientPackets.RegistersAreRead | bin/debugserver/cmd_handler.cc:385-413 | the reply to "g" decodes to the registers, or is as many zeros |
| ClientPackets.MemoryIsWritten | bin/debugserver/cmd_handler.cc:582-647 | "M" with printed parameters writes exactly if there are data, as many as announced |
| CommandHandlers.CommandHandler.HandleWriteMemory | bin/debugserver/cmd_handler.cc:582-647 | "OK" exactly when the bytes given, as many as announced, were written or there were none, else the error |
| CommandHandlers.CommandHandler.HandleReadRegisters | bin/debugserver/cmd_handler.cc:385-413 | one reply: the registers in hex, as many zeros if they cannot be read, or an error |
| CommandHandlers.CommandHandler.HandleWriteRegisters | bin/debugserver/cmd_handler.cc:415-446 | one reply; "OK" exactly when the given registers could not be set and the old ones were written |
| CommandHandlers.CommandHandler.HandleDetach | bin/debugserver/cmd_handler.cc:344-383 | "OK" exactly when the attached process, named by its own pid if any is named, was detached, else the error of the first test that fails |
| ClientPackets.DetachNamesTheProcess | bin/debugserver/cmd_handler.cc:344-383 | what "D" and "D;" with a printed pid do |
| ClientPackets.OtherPidIsInvalid | bin/debugserver/cmd_handler.cc:362-365 | another pid is refused with E22, by "D;" and by "vKill;" |
| CommandHandlers.CommandHandler.HandleThreadAlive | bin/debugserver/cmd_handler.cc:692-719 | "OK" exactly for the id of a live thread of the attached process, else the error |
| ClientPackets.AliveIffListed | bin/debugserver/cmd_handler.cc:692-719 | "T" with a printed id is answered "OK" exactly if a live thread has it, and else E02 |
| CommandReplies.ListedIsAlive | bin/debugserver/cmd_handler.cc:692-719 | every name in a thread list is answered "OK" |
| CommandHandlers.CommandHandler.HandleAttach | bin/debugserver/cmd_handler.cc:1088-1127 | "OK" exactly when an idle inferior was attached to an existing process, else the error |
| ClientPackets.AttachNeedsIdle | bin/debugserver/cmd_handler.cc:1088-1127 | when "vAttach;" with a printed pid attaches |
| CommandHandlers.CommandHandler.HandleKill | bin/debugserver/cmd_handler.cc:1225-1264 | "OK" exactly when the running process with that pid was killed, else the error |
| ClientPackets.KillNamesTheProcess | bin/debugserver/cmd_handler.cc:1225-1264 | when "vKill;" with a printed pid kills |
| CommandHandlers.CommandHandler.HandleQuery | bin/debugserver/cmd_handler.cc:649-681 | which queries are supported, and one reply each |
| CommandHandlers.CommandHandler.HandleQueryThreadInfo | bin/debugserver/cmd_handler.cc:929-996 | the first query lists all live threads and the next ends the list; a query out of sequence is an error and changes nothing |
| ClientPackets.ThreadListReadsBack | bin/debugserver/cmd_handler.cc:968-993 | the list splits back into the ids of all live threads, in order |
| ThreadList.ThreadInfo | bin/debugserver/cmd_handler.cc:968-993 | the precomputed buffer size is exactly what the list needs |
| ThreadList.ShortThreadListFits | bin/debugserver/server.cc:230-233 | the list of up to 240 threads fits in one frame |
| ThreadList.JoinStrings | lib/debugger_utils/util.cc:135-151 | every write is in the buffer and the result is the joined strings |
| CommandHandlers.CommandHandler.HandleV | bin/debugserver/cmd_handler.cc:721-734 | which v-packets are supported, and their replies |
| CommandHandlers.CommandHandler.HandleRun | bin/debugserver/cmd_handler.cc:1266-1325 | no reply exactly when the program was started |
| ClientPackets.RunStartsProgram | bin/debugserver/cmd_handler.cc:1266-1325 | "vRun;" with printed arguments remembers exactly those and starts the program unless one is running |
| ClientPackets.RunAgain | bin/debugserver/cmd_handler.cc:1277-1283 | without arguments the last ones are used again |
| CommandHandlers.CommandHandler.HandleVCont | bin/debugserver/cmd_handler.cc:1129-1223 | "OK" exactly when there is a process, the list is valid and no new thread is to be stepped; exactly then the threads are moved as the list says, and otherwise none is |
| ClientPackets.ContinueAll | bin/debugserver/cmd_handler.cc:1129-1223 | "vCont;c" is answered "OK" and resumes every thread that can be |
| CommandHandlers.CommandHandler.HandleQueryRcmd | bin/debugserver/cmd_handler.cc:846-901 | one reply on every branch: "OK" exactly for nothing, quit, exit and an accepted level, else the text in hex; the level and the wish to quit change exactly then |
| ClientPackets.MonitorDecodes | bin/debugserver/cmd_handler.cc:867-900 | a reply other than "OK" decodes to its text |
| MonitorCommands.LevelsStayBelow | bin/debugserver/server.cc:136-159 | no level at or above the number of severities is ever set, and only "set" changes it |
| CommandHandlers.CommandHandler.SetParameter | bin/debugserver/server.cc:136-159 | accepts exactly "verbosity" with a decimal number below the number of severities |
| MonitorCommands.SetThenShow | bin/debugserver/server.cc:136-170 | a level that was set is the one shown |
| CommandHandlers.CommandHandler.HandleQueryXfer | bin/debugserver/cmd_handler.cc:998-1086 | which bytes of the auxiliary vector a reply holds, how many, and exactly when it does not fit |
| CommandReplies.AuxvBehindTheEnd | bin/debugserver/cmd_handler.cc:1072-1084 | "qXfer:auxv:read::64,1000" as an example of a reply that does not fit |
| AuxvReply.WithinTheVector | bin/debugserver/cmd_handler.cc:1077-1078 | up to the end of the vector the length is what is left or was asked for |
| AuxvReply.EndIs | bin/debugserver/cmd_handler.cc:1056-1067 | the vector has 96 bytes with an executable and 32 without |
| AuxvReply.LongIff | bin/debugserver/cmd_handler.cc:1077-1078 | the length exceeds a bound above the size of the array exactly if that many bytes were asked for at an offset behind the end |
| AuxvReply.CopiedIsWantedIff | bin/debugserver/cmd_handler.cc:1082 | the bytes copied are those asked for, whatever the vector holds, exactly at offset 0 or if there are none |
| KernelTrace.CurrentIsLatest | bin/ktrace_provider/importer.cc:668-688 | a CPU runs the user thread of its latest switch, or the kernel thread of one that names no user thread, or nothing |
| KernelTrace.SwitchesAreLinked | bin/ktrace_provider/importer.cc:675-686 | in the switches written, what a CPU switches out is what it last switched in, and unknown the first time |
| KernelTrace.EverySwitchIsWritten | bin/ktrace_provider/importer.cc:680-686 | every context switch is written, once and in order, with its own incoming thread |
| KernelTrace.PairsAreMatches | bin/ktrace_provider/importer.cc:609-650 | durations are written for exactly the pairs of a thread's latest unconsumed enter and an exit of equal syscall number |
| KernelTrace.DurationsOfPairs | bin/ktrace_provider/importer.cc:641-647 | one duration per pair, in the order of the exits, from the time of the enter to that of the exit, on the thread of the exit's CPU |
| KernelTrace.MatchesDoNotInterleave | bin/ktrace_provider/importer.cc:609-650 | each enter is used at most once, and calls of one thread do not interleave |
| KernelTrace.IntervalsDoNotOverlap | bin/ktrace_provider/importer.cc:609-650 | with non-decreasing times one thread's intervals never overlap |
| KernelTrace.Importer.SwitchCpuToThread | bin/ktrace_provider/importer.cc:1227-1233 | the table grows as needed and only this CPU changes |
| KernelTrace.Importer.SwitchCpuToKernelThread | bin/ktrace_provider/importer.cc:1235-1242 | the same for a kernel thread |
| KernelTrace.Importer.HandleContextSwitch | bin/ktrace_provider/importer.cc:668-688 | the table and the written switches stay equal to their definitions over all records |
| KernelTrace.Importer.HandleSyscallEnter | bin/ktrace_provider/importer.cc:609-623 | the per-thread entries stay equal to the definition over all records |
| KernelTrace.Importer.HandleSyscallExit | bin/ktrace_provider/importer.cc:625-650 | the same, and false is returned exactly when a known thread's exit wrote nothing |
| CpuPerf.ReportIsSum | bin/cpuperf_provider/importer.cc:357-377 | for a pair without value records the report is zero at the start and, at the stop, the sum modulo 2^64 of exactly the counts that are in time; a pair never seen is absent |
| CpuPerf.PairIsReportedOnce | bin/cpuperf_provider/importer.cc:357-377 | the records of a cpu and event in the report are exactly, in order: none if the pair was never seen; one value at the stop if its last in-time amount was a value; else a zero at the start and the total at the stop; repeated as often as the event is listed |
| CpuPerf.DistinctOccurOnce | bin/cpuperf_provider/importer.cc:357-377 | with distinct events that is once |
| CpuPerf.ReportIsTotal | bin/cpuperf_provider/importer.cc:357-377 | which records are in the report for a pair, whatever its mix of value and count records |
| CpuPerf.DataIsTotal | bin/cpuperf_provider/importer.h:59-69 | the tracked amount is the latest in-time value plus the in-time counts after it, modulo 2^64 |
| CpuPerf.TotalIsSum | bin/cpuperf_provider/importer.h:65-69 | without value records that total is the sum of the in-time counts |
| CpuPerf.AcceptedIsInTime | bin/cpuperf_provider/importer.cc:118-141 | a record is counted exactly when it is later than its pair's previous record (or the start) and not after the stop |
| CpuPerf.FaultIs | bin/cpuperf_provider/importer.cc:118-141 | a record is backward, empty or late exactly if it is earlier than its pair's previous record (or the start), at the same time, or after the stop |
| CpuPerf.ClockIsLatest | bin/cpuperf_provider/importer.cc:97-116 | the clock is the time of the latest time record, whether or not it carries an event |
| CpuPerf.RecordsSplit | bin/cpuperf_provider/importer.cc:97-190 | each record is in time, only sets the clock, or is counted as backward, empty or late, and only one of these |
| CpuPerf.KeyInjective | bin/cpuperf_provider/importer.h:100-104 | packed keys never collide |
| CpuPerf.PackedKeyIsSum | bin/cpuperf_provider/importer.h:100-104 | shift-and-or of 32-bit words is the sum used here |
| CpuPerf.EventTracker.UpdateTime | bin/cpuperf_provider/importer.h:46-49 | only this pair's time changes |
| CpuPerf.EventTracker.GetTime | bin/cpuperf_provider/importer.h:51-57 | the pair's time, or the start |
| CpuPerf.EventTracker.UpdateValue | bin/cpuperf_provider/importer.h:59-63 | only this pair changes, to a value |
| CpuPerf.EventTracker.AccumulateCount | bin/cpuperf_provider/importer.h:65-69 | only this pair changes, by a 64-bit addition |
| CpuPerf.ImportRecords | bin/cpuperf_provider/importer.cc:79-210 | after the loop the tracker holds, for every pair, what the whole list defines; the 32-bit counters hold the verdict counts, and the record counter is the number of in-time and clock records plus the three fault counters |
| CpuPerf.EmitTallyCounts | bin/cpuperf_provider/importer.cc:357-377 | reports every cpu and event in order |
| CpuPerf.ReportFor | bin/cpuperf_provider/importer.cc:362-376 | a record is in the report exactly when it is reported for its own cpu and event |
| CpuPerf.ImportTally | bin/cpuperf_provider/importer.cc:79-210 | the whole import in tally mode |

## Left out

- The destructor of the HTTP service and of a running loader container, and everything below a granted request (sockets, TLS, redirects).
- Realm labels longer than the label limit, and failures to create an isolated directory, which give an empty path.
- The watchdog's usage computation and its timer.
- Names that are too long for a directory entry, which the directory would refuse.
- The hub entries of a component other than its place in its runner's directory and its job id.
- Runner paths through packages are asynchronous and start with an empty construction stack; loading the package itself is not modelled.
- CommandHandlers.CommandHandler.HandleQueryRcmd: the first line stands for the help text, and how a command is cut into words is a parameter.
- CommandHandlers.CommandHandler.HandleDetach: reading the first character of an empty parameter is not modelled; an empty parameter names no pid.
- CommandHandlers.CommandHandler.HandleVCont: the "pick one" step edits copies of the entries and has no effect, so it is left out.
- Software breakpoints (z and Z packets), which the source disables.
- Retransmission after a '-' acknowledgement, which the server does not do.
- VCPU durations, channel ids, flows and names of kernel-trace objects: the same kind of map updates as the system calls, with easier properties.
- Sampling mode of the cpuperf importer, its floating-point rates and last-branch blobs.
- KernelTrace.Importer.HandleContextSwitch: a thread is named by its id; names and processes registered for it, and the priorities and states in the record, are not modelled.

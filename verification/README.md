# Verified model of gocharm

gocharm is a Go library for writing Juju charms. This project models its stateful core in Dafny and proves what that core keeps over every run: the HTTP server that a charm runs as an operating system service, the hooks that drive it, the registry and the persistence that hooks rest on, and the charm components (ports, relation values, the concat charm) built on top.

How it is laid out:

- Each source file is modelled twice. A class has the source's fields and assigns them step by step, loop for loop; a function on values says what each step does. Every method is proved to be its function, and the theorems about runs are about the functions, so they hold of the objects.
- What the code leaves to the world (setters, handler constructors, listening, tools, saving, the order in which Go iterates a map) is a parameter or a nondeterministic choice. A server's `Env` answers from the length of the event log, so the same call may be answered differently each time, and every server process that a unit starts, by a hook or at a reboot, has an `Env` of its own; every theorem is for all such worlds, but for those of `ServerResume`, which say when a world is steady.
- A panic is a missing result, an error is a result of false.

| files | what they model |
|---|---|
| `ServerModel`, `HTTPServer` | `charmbits/httpservice/server.go` as functions, and as an object |
| `ServerLifecycle`, `ServerRelations`, `ServerAgreement` | theorems about every run of the server |
| `ServerResume` | crash and resume in a world that does not change |
| `MongoSessions` | the server with the setter of `charmbits/mongodbrelation/requirer.go` |
| `HookModel`, `HookService` | `charmbits/httpservice/service.go` over `charmbits/service/service.go` |
| `ServiceManager`, `MockServices` | `hook/hooktest/service.go` as an interleaving of steps, and as objects |
| `RegistryModel`, `Registry`, `Metadata` | `hook/registry.go`: the tree of clones, dispatch, relations and options |
| `HookRuns`, `HookProcess` | `hook/main.go` and `hook/state.go`: runs of hooks and what survives them |
| `PortLedger`, `SimpleProvider` | `charmbits/httprelation/provider.go`, `charmbits/simplerelation/provider.go` |
| `SortedStrings`, `Requirer` | `charmbits/simplerelation/requirer.go` and the addresses made of it |
| `Concat`, `ConcatNetwork` | `example-charms/concat/runhook.go`: one unit, and a network of them |

## Where the code does not do what it says

Each of these is a lemma with the input, beside the exact condition under which the promise holds.

- Every field setter is handed the first field of the relation struct (server.go:394). With at most one field that is the field meant (`OneFieldIsOwn`). With two session fields each pass closes the session it dialled: the handler gets none, and the next `Set` leaves no handler at all (`TwoFieldsDiverge`, `TwoFieldsGetNoSession`, `TwoFieldsReachTheUnexpected`).
- A `Set` that leaves through server.go:238-250 or 253-256 keeps a relation value without a handler. If a setter then asks for a restart, the handler is constructed from fields that were not set. `HandlerGetsFieldsExactly` is the exact condition, `StrandedExactly` says how a caller can tell, and `StrandedHandlerGetsNoSession` is the input.
- A failed listen is reported once and never retried by later calls that need no restart (`FailedListenIsReported`, `FailedListenIsNotRetried`). `BusyOnceStaysClosed` is the input: a port that is busy only the first time.
- A server that resumes from its file need not serve what the one that crashed served, even in a world that does not change. It does if and only if the last call left a handler exactly when a new server gets one; both sides are read off the state before that call (`ResumeAgreesExactly`, over every run, all setters and any number of fields). There are three inputs on which it does not: the last call found a relation value without a handler (`StrandedServerResumesMore`, with a MongoDB session); it took the shortcut where a new server would get no handler, or it failed to set a live handler's field where a new one could be set (both in `LookingBackResumesOtherwise`). With setters as documented and one field there is no other kind (`OneFieldResumesExactly`). The MongoDB setter has only the first kind (`MongoResumes`), and without relations there is none (`NoRelationsResume`).
- Moving HTTP onto the port that HTTPS still records closes it for both (`ConfigureKeepsExactly`, `SwappingPortsClosesOne`).
- A service is "always stopped first" before it is removed only for a single client (`OneClientIsOrdered`, `RemoveBreaksOrderExactly`, `TwoClientsRemoveWhileRunning`).
- If a tool's effect stays when its hook fails, then after a concat hook that fails between two downstream relations the first has a value that was never committed, and a later hook that computes the committed value leaves it there (`EndKeepsFaithfulExactly`, `StaleIsHealedExactly`). `FailingHookLeavesStale` is the input.
- `Service.Start` says that it restarts the service when its arguments differ. It does not: a service keeps the arguments it was first installed with (`ArgsTakeEffectExactly`, `ArgsAreOfTheFirstInstall`). So if a charm calls `Restart` before the service was ever started, it installs it without arguments, and no later hook can bring it to serve (`InstalledWithoutArgsExactly`, `WithoutRestartHasArgs`, `WithoutArgsNeverServes`). `RestartBeforeStart` is the input; it takes stopping a service that is not installed to succeed, which for the real service wrapper (implementation.go:51-53) is up to a library that is not part of this model. `changed` needs the same of it before every first start, and the mock service manager does so.
- `Restart` starts the service even if it should be stopped, until the next `changed` (`RestartKeepsAgreementExactly`). `RestartAfterStopRuns` is the input.
- A service that runs, but whose `Installed` flag was lost, is not reached by `changed` until the charm restarts it (`UnrecordedServiceIsOutOfReach`). `LostRecordLosesService` is the input.
- If a tool's effect stays when its hook fails, a hook that changes ports or values and then cannot save its state leaves a port open that is not recorded, or relations with different values (`UnsavedKeepsLedgerExactly`, `UnsavedValuesDiverge`). `UnsavedPortStaysOpen` is the input.
- `runhook cmd-` runs no command and is no usage error: Main takes it for a hook, and panics, as there is nothing to run its tools with (`PanicsExactly`).

## Model

| member | source | states |
|---|---|---|
| ServerModel.SetFieldValue | charmbits/httpservice/server.go:384-410 | setting or finalizing any field changes only the relation value's first cell, and nothing else of the server |
| ServerModel.SetRelations | charmbits/httpservice/server.go:321-364 | only the relation value and the log change; it reports incompleteness exactly when some field has no data, and leaves a relation value exactly when the handler takes one |
| ServerModel.CloseResources | charmbits/httpservice/server.go:414-430 | afterwards there is no handler, listener or relation value, and the recorded state is untouched |
| HTTPServer.Server.StartServer | charmbits/httpservice/server.go:65-110 | a server starts exactly when it has one argument, its file loads and RPC can be served, and is then in the first state of a run from the loaded state |
| HTTPServer.Server.Set | charmbits/httpservice/server.go:144-156 | the call is one step of a run, returns its warnings, and leaves the encoded state on file exactly when saving works |
| HTTPServer.Server.Kill | charmbits/httpservice/server.go:93-108 | killing closes everything the server holds |
| HTTPServer.Server.Apply | charmbits/httpservice/server.go:199-221 | the code of set is the function that the theorems about runs are about |
| HTTPServer.Server.Restart | charmbits/httpservice/server.go:222-251 | teardown and rebuilding, with each of the four exits |
| HTTPServer.Server.StartHandler | charmbits/httpservice/server.go:252-273 | constructing the handler and recording it with the state |
| HTTPServer.Server.StartHTTP | charmbits/httpservice/server.go:257-263 | the HTTP listener is set exactly as its specification says, failed listens included |
| HTTPServer.Server.StartHTTPS | charmbits/httpservice/server.go:264-270 | the HTTPS listener likewise, with the certificate |
| HTTPServer.Server.SetRelations | charmbits/httpservice/server.go:321-343 | the loop over the fields decides completeness before any setter is called |
| HTTPServer.Server.SetFields | charmbits/httpservice/server.go:344-364 | the loop that calls the setters, stopped by a failure but not by a restart |
| HTTPServer.Server.FinalizeFields | charmbits/httpservice/server.go:366-378 | the loop that finalizes every field and lets the relation value go |
| HTTPServer.Server.SetFieldValue | charmbits/httpservice/server.go:384-410 | one call of a setter, in place |
| HTTPServer.Server.CloseResources | charmbits/httpservice/server.go:414-430 | the order of closing, in place |
| ServerLifecycle.EveryRunIsAccepted | charmbits/httpservice/server.go:199-274 | over every run and world, the events form a sequence of generations, each with one relation value, at most one handler and one listener of each kind, closed in order and then finalized; and the server holds exactly what its log says is open |
| ServerLifecycle.NothingAfterDrop | charmbits/httpservice/server.go:366-378 | nothing ever touches a relation value once it was let go |
| ServerLifecycle.FinalizedExactlyOnce | charmbits/httpservice/server.go:366-378 | each field of a relation value that was let go has been finalized exactly once, of the current one at most once, of any other never |
| ServerLifecycle.OneGenerationAtATime | charmbits/httpservice/server.go:321-328 | between two relation values the first has been let go |
| ServerLifecycle.BalanceIsLive | charmbits/httpservice/server.go:414-430 | handlers and listeners opened minus closed is never more than one, and a listener is only open with a handler |
| ServerLifecycle.ClosesInOrder | charmbits/httpservice/server.go:414-430 | the HTTP listener is closed first, then the HTTPS listener, then the handler, and the fields follow |
| ServerLifecycle.KilledServerFinalizedAll | charmbits/httpservice/server.go:93-108 | once killed, every field of every relation value ever made has been finalized exactly once |
| ServerLifecycle.KilledServerClosedAll | charmbits/httpservice/server.go:93-108 | once killed, every handler and listener ever opened has been closed |
| ServerAgreement.EveryRunAgrees | charmbits/httpservice/server.go:144-156 | in every reachable state a live handler was built from the recorded argument, and a listener is bound to the recorded port and certificate |
| ServerAgreement.ShortcutRefinesRebuild | charmbits/httpservice/server.go:217-226 | when set takes its shortcut, a complete teardown and rebuild that gets its handler would have given the same argument, ports and certificate, however the world changes, if the listens of the two handlers succeeded |
| ServerResume.ShortcutIsRebuildWhenSteady | charmbits/httpservice/server.go:217-226 | in a steady world, for any number of fields and failed listens or not, if and only if a new server would get a handler for the state; and without relations it would |
| ServerAgreement.FailedListenIsNotRetried | charmbits/httpservice/server.go:217-226 | any number of calls that take the shortcut leave the handler and its listeners, missing ones too, as they are |
| ServerAgreement.BusyOnceStaysClosed | charmbits/httpservice/server.go:257-272 | a port that is busy once is never listened on however often the same state is set |
| ServerAgreement.FailedListenIsReported | charmbits/httpservice/server.go:257-272 | a call that starts a handler warns of a listener exactly when one was wanted and is missing |
| ServerAgreement.SetServesWhatIsAsked | charmbits/httpservice/server.go:199-274 | by the ports, certificate and argument alone: a call that asks for a port and warns of nothing leaves a handler with that argument, and, if it constructed it, an HTTP listener exactly for a given HTTP port and an HTTPS listener exactly for a given HTTPS port with a certificate; a call that asks for none closes everything |
| ServerAgreement.KeepsHandlerExactly | charmbits/httpservice/server.go:217-221 | a live handler is kept, and none constructed, if and only if some port is asked for, ports, certificate and argument are the recorded ones, and all fields were set without a restart |
| ServerAgreement.WarnsOfFieldsExactly | charmbits/httpservice/server.go:206-216 | a call says that fields were not set if and only if some port is asked for and a field has no data or fails; then everything is closed |
| ServerAgreement.BootsExactly | charmbits/httpservice/server.go:446-460 | the first start, without a file, holds and does nothing; one with a file happens if and only if the file decodes |
| ServerAgreement.CrashResume | charmbits/httpservice/server.go:65-79 | after any run that saved, a new server starts from the file in any other world; exactly when it gets a handler; and if both had theirs, it has the same argument, and, when the listens of both handlers succeeded, the same ports and certificate |
| ServerResume.ResumeAgreesExactly | charmbits/httpservice/server.go:432-460 | after any run in a steady world, for all setters and any number of fields, the resumed server serves what the crashed one served, failed listens or not, if and only if, from the state before the last call, that call leaves a handler exactly when a new server gets one |
| ServerResume.LeavesHandlerExactly | charmbits/httpservice/server.go:199-274 | when a call leaves a live handler, read off the state before it: the shortcut, a teardown whose rebuild needs no second restart, or a construction from the fields as they are |
| ServerResume.OneFieldResumesExactly | charmbits/httpservice/server.go:432-460 | with setters as documented and at most one field, unless the last call found a relation value without a handler: they agree but for a shortcut where a new server gets no handler, and a live handler's field that cannot be set where a new one's can |
| ServerResume.LookingBackResumesOtherwise | charmbits/httpservice/server.go:326-364 | both kinds, with documented setters in a steady world: a setter that takes data only into a used field, and one that takes it only into an unused one |
| ServerResume.ResumeAgrees | charmbits/httpservice/server.go:432-460 | if moreover whether a field can be set does not depend on what it held, nor whether a handler can be constructed on its fields at all, they always agree |
| ServerResume.NoRelationsResume | charmbits/httpservice/server.go:432-460 | without relations it always does, with no condition on setters, handlers or listens |
| ServerResume.ResumeIsRebuild | charmbits/httpservice/server.go:432-460 | in a steady world resuming is the same as tearing down and rebuilding, relation fields and warnings included, for any number of fields |
| MongoSessions.MongoResumes | charmbits/mongodbrelation/requirer.go:111-126 | with one MongoDB field that is always given an info, in a steady world, over runs in which no call found a relation value without a handler, the resumed server serves what the crashed one served, although its sessions are new; the handler may need its session |
| MongoSessions.StrandedServerResumesMore | charmbits/httpservice/server.go:206-256 | a first argument that the constructor refuses, then a good one: the server has no handler, and the one that resumes has |
| ServerRelations.IncompleteUnreachable | charmbits/httpservice/server.go:228-251 | "relation unexpectedly incomplete" is never reported, from any state, by any setter |
| ServerRelations.CompleteExactly | charmbits/httpservice/server.go:330-342 | the fields are complete if and only if each has an entry with data |
| ServerRelations.FailureStopsPass | charmbits/httpservice/server.go:344-364 | the setters are called one field at a time in order, and none after one that failed or after data that cannot be decoded |
| ServerRelations.RestartUnreachable | charmbits/httpservice/server.go:228-251 | "restart unexpectedly needed" is never reported if setters keep their contract and there is at most one field |
| ServerRelations.HandlerGetsFieldsExactly | charmbits/httpservice/server.go:206-255 | a handler is constructed from fields all just set with the current data if and only if there is at most one field and it is not the case that there was no handler while a restart was asked for |
| ServerRelations.StrandedExactly | charmbits/httpservice/server.go:238-256 | a relation value is left without a handler if and only if the call warned of one of two exits |
| ServerRelations.EveryBuildIsFilled | charmbits/httpservice/service.go:110-124 | over any run that avoids those exits, every handler ever constructed got every field from the data of that call |
| ServerRelations.OneFieldIsOwn | charmbits/httpservice/server.go:380-410 | with at most one field, the setters get the field they are meant to |
| ServerRelations.FreshPass | charmbits/httpservice/service.go:99-106 | setters as documented never ask for a restart on a new relation value of one field |
| MongoSessions.SetSession | charmbits/mongodbrelation/requirer.go:111-126 | a set session is always closed and a restart asked for; the field ends up set exactly when a dial succeeds |
| MongoSessions.SessionField.SetFieldValue | charmbits/mongodbrelation/requirer.go:111-126 | the same, through the pointer to the field |
| MongoSessions.EverySessionIsAccountedFor | charmbits/mongodbrelation/requirer.go:111-126 | over every run, sessions dialled are sessions closed plus those in fields, none is closed twice or before it was dialled, and none is left once everything is closed |
| MongoSessions.MongoNeverRestartsFresh | charmbits/mongodbrelation/requirer.go:111-126 | the setter keeps the contract of registered setters |
| MongoSessions.TwoFieldsDiverge | charmbits/httpservice/server.go:393-396 | two session fields: the code closes what it dialled where setting each field would fill both |
| MongoSessions.TwoFieldsGetNoSession | charmbits/httpservice/server.go:206-255 | so the handler is constructed without sessions |
| MongoSessions.TwoFieldsReachTheUnexpected | charmbits/httpservice/server.go:238-243 | and every later call reports the unexpected restart and leaves no handler |
| MongoSessions.StrandedHandlerGetsNoSession | charmbits/httpservice/server.go:252-256 | after one failed construction, the same call again constructs the handler without its session |
| HookModel.ChangedRunsExactly | charmbits/httpservice/service.go:257-297 | after every changed that succeeds, from any state, the service runs if and only if it was started and there is an HTTP port, or an HTTPS port and a certificate; it then has saved exactly those ports, that certificate, and the unit's argument and relation values; else there is no server |
| HookModel.UnsavedSetIsApplied | charmbits/httpservice/server.go:144-156 | a Set that cannot be saved fails changed, and yet the server has the new state |
| HookModel.RemoveUndoesStart | charmbits/service/service.go:138-147 | stopping and removing takes back all that a start did, but for the recorded arguments; doing it again does nothing |
| HookModel.AgreementServes | charmbits/httpservice/service.go:278-288 | then a live handler has the current argument and its listeners the current ports |
| HookModel.RunHookAgrees | charmbits/httpservice/service.go:403-423 | after every hook that succeeds and does not end in a restart, hook and server agree, the server's relation values are exactly those of the relations now complete, and every other getter found its relation incomplete |
| HookModel.RunHookLatest | charmbits/httpservice/service.go:229-247 | after every hook that succeeds, the unit is started or not, and has the argument, as the latest of its calls to Start and Stop had it, or else as before |
| HookModel.CallIsRecorded | charmbits/httpservice/service.go:229-247 | what the charm asks for is on record even if changed then fails |
| HookModel.RefreshedExactly | charmbits/httpservice/service.go:403-423 | relation by relation, what getting the values leaves |
| HookModel.FailureLeavesUnit | charmbits/service/service.go:81-126 | an unreadable certificate, a failed stop and a failed start change nothing, but that the service may be installed |
| HookModel.EveryGoodHookAgrees | charmbits/httpservice/service.go:192-204 | all this over every life of a unit, with failing hooks, crashes, reboots and lost states, each server process in a world of its own: the service runs if and only if the latest Start or Stop was a Start and a port is usable, with the state, argument and listeners that the hook's inputs spell out |
| HookModel.QuietChangedServes | charmbits/httpservice/service.go:278-296 | if changed succeeds and Set warned of nothing, there is a live handler with the argument, and, unless a listen had failed before, every listener wanted |
| HookModel.WorkingToolsSucceed | charmbits/httpservice/service.go:257-297 | with working tools changed succeeds exactly if there is nothing to serve, or a recorded server answers, or one can be started: its file loads and it was not installed without arguments |
| HookModel.RestartKeepsAgreementExactly | charmbits/service/service.go:81-89 | a restart keeps hook and server in agreement if and only if the service should run, and in the world that its new process meets RPC can be served, the relation fields set, and the handler constructed |
| HookModel.RestartAfterStopRuns | charmbits/service/service.go:81-89 | a life in which a service that was stopped runs again |
| HookModel.LostRecordLosesService | charmbits/service/service.go:156-160 | a life after which changed fails whatever works |
| HookModel.ArgsAreOfTheFirstInstall | charmbits/service/service.go:91-118 | over every life of a unit, the service keeps the arguments of its first installation |
| HookModel.WithoutRestartHasArgs | charmbits/service/service.go:81-89 | over every life in which the charm never calls Restart the service is installed with its argument |
| HookModel.WithoutArgsNeverServes | charmbits/httpservice/server.go:65-68 | a service installed so has no server ever after, and changed fails whenever there is something to serve |
| HookModel.RestartBeforeStart | charmbits/service/service.go:81-89 | a life in which that happens |
| HookService.Service.Start | charmbits/httpservice/service.go:229-237 | Start in place |
| HookService.Service.Stop | charmbits/httpservice/service.go:240-247 | Stop in place |
| HookService.Service.Changed | charmbits/httpservice/service.go:257-297 | changed in place |
| HookService.Service.StartOS | charmbits/service/service.go:96-118 | installing the service if it is not installed, and starting it; recorded only once the service manager has started it |
| HookService.Service.StopOS | charmbits/service/service.go:121-126 | stopping the service |
| HookService.Service.RestartOS | charmbits/service/service.go:81-89 | stopping, and starting with the recorded arguments |
| HookService.Service.StopAndRemoveOS | charmbits/service/service.go:138-147 | nothing if not recorded; else the service is stopped, then removed, then no longer recorded |
| HookService.Service.CallSet | charmbits/service/service.go:156-181 | calling the server, guarded by the record, by a loop that dials until an attempt succeeds or none is left |
| HookService.Service.Refresh | charmbits/httpservice/service.go:403-423 | whatever the order of the getters: it fails exactly when one fails, and else the values are those of the complete relations, the incomplete ones removed |
| ServiceManager.EveryRunStopsOnce | hook/hooktest/service.go:181-236 | under any interleaving of clients and watchers, Start minus Stop events of a service is 1 if it has a command and else 0; every run has one Stop event unless it is live |
| ServiceManager.WatcherEndsOnlyItsRun | hook/hooktest/service.go:220-234 | a watcher ends at most the run it was started for, and leaves every other as it was |
| ServiceManager.AnnouncesExactly | hook/hooktest/service.go:145-236 | under any interleaving, a service has exactly as many events of each kind as there were steps with reason for one: a Start per start of an idle service that did not fail, an Error per one that did, per failed Stop and per failed command, a Stop per command that ended at once, was stopped or was found ended, an Install and a Remove as it came and went |
| ServiceManager.StepAnnounces | hook/hooktest/service.go:181-196 | the same of one step; and a Stop announces its Error before its Stop |
| ServiceManager.OneClientIsOrdered | hook/hooktest/service.go:139-170 | with one client, the events of a name form a prefix of (Install (Start Stop)* Remove)* |
| ServiceManager.RemoveBreaksOrderExactly | hook/hooktest/service.go:161-170 | with several, removing breaks that order exactly when the service is running again |
| ServiceManager.TwoClientsRemoveWhileRunning | hook/hooktest/service.go:126-128 | a run of two clients that removes a running service |
| MockServices.OSServices.Install | hook/hooktest/service.go:145-158 | the section of Install that installs, on shared objects |
| MockServices.OSServices.Start | hook/hooktest/service.go:199-236 | Start, on shared objects |
| MockServices.OSServices.Stop | hook/hooktest/service.go:181-196 | Stop, on shared objects |
| MockServices.OSServices.Remove | hook/hooktest/service.go:163-169 | the section of StopAndRemove that removes |
| MockServices.OSServices.Running | hook/hooktest/service.go:173-178 | Running |
| MockServices.OSServices.WatchWait | hook/hooktest/service.go:221-224 | a watcher before it takes the mutex |
| MockServices.OSServices.WatchEnd | hook/hooktest/service.go:225-233 | a watcher once it has the mutex, on an object that may have left the table |
| RegistryModel.NamesAreUnique | hook/registry.go:116-129 | over any registration, registries have distinct names, and no two states are saved under one name |
| RegistryModel.JoinInjective | hook/registry.go:124-125 | dot-joined names come apart in one way |
| RegistryModel.CommandDispatch | hook/main.go:188-193 | running a registry's command name runs exactly the function that some call registered on it, and is an error exactly if no call did |
| RegistryModel.HookDispatch | hook/main.go:88-104 | a hook runs the functions of the calls to RegisterHook, each under the name of its registry, in the order of the calls, and then the wildcards in theirs; it is an error exactly if it has none |
| RegistryModel.ContextsAreKept | hook/registry.go:163-184 | the setters and states are those of the calls to RegisterContext, each under the name of its registry, all of them and in order |
| RegistryModel.CallPanicsExactly | hook/registry.go:116-215 | which call on a registry panics, by the calls made before |
| RegistryObjects.Registry.NewRegistry | hook/registry.go:71-86 | a new root registry |
| RegistryObjects.Registry.Clone | hook/registry.go:116-129 | a clone shares the store of its parent, and panics exactly on bad or repeated names |
| RegistryObjects.Registry.RegisterHook | hook/registry.go:140-149 | seen through every clone; panics exactly on an invalid name other than the wildcard |
| RegistryObjects.Registry.RegisterContext | hook/registry.go:163-184 | once per registry, with a state that is a pointer; of a call that panics for its state, the setter stays |
| RegistryObjects.Registry.RegisterCommand | hook/registry.go:209-215 | once per registry, filed under its name |
| RegistryObjects.Registry.RegisterRelation | hook/registry.go:223-247 | in place, with the defaults |
| RegistryObjects.Registry.RegisterConfig | hook/registry.go:274-283 | in place |
| Metadata.Normalize | hook/registry.go:233-238 | a missing scope becomes global, and a missing limit 1 for peers and requirers; nothing else changes |
| Metadata.NormalizeIdempotent | hook/registry.go:233-238 | normalizing twice changes nothing more, and what it leaves alone |
| Metadata.RegisterAllExactly | hook/registry.go:223-247 | registering panics if and only if a relation has no name, interface or role or two of one name differ; else the relations are exactly those, normalized |
| Metadata.RelationOrderIndependent | hook/registry.go:223-247 | sequences that register the same relations, in any order and however often, all panic or all yield the same relations |
| Metadata.AddOrderIndependent | hook/registry.go:274-283 | likewise for configuration options |
| Metadata.AddAllExactly | hook/registry.go:274-283 | a panic comes exactly from two entries that clash, and else the table is exactly the entries |
| HookRuns.WildcardsComeLast | hook/main.go:88-104 | the specific hooks run first, and the wildcards only if all of them succeeded |
| HookRuns.CallsArePrefix | hook/main.go:97-103 | the functions called are a prefix, each on what the ones before it left, cut at the first error |
| HookRuns.StatePersists | hook/main.go:53-134 | after any sequence of runs, failing hooks included, if the last one saves, then in the next that loads, whatever its version of the charm registers, each component that was there before starts, setters included, from exactly the state it ended in |
| HookRuns.NewComponentStartsAfresh | hook/main.go:107-121 | a component that no earlier run registered starts as it was registered |
| HookRuns.AllStatePersists | hook/main.go:53-134 | with the same components, the next run loads all of the state if and only if it can read the files |
| HookRuns.SurvivesExactly | hook/main.go:107-134 | state survives if and only if no two different values share a name and every file can be read |
| HookRuns.FailedSaveKeepsOthers | hook/main.go:123-134 | a save that fails at one entry keeps the new values before it and the old ones after it |
| HookRuns.NothingIsSavedBeforeHooks | hook/main.go:66-86 | if loading or a setter fails nothing is called and nothing is saved |
| HookRuns.RegisteredIsWhatWasCalled | hook/registry.go:140-184 | what Main loads, sets, runs and saves is exactly what the calls registered, in their order, under distinct names |
| HookProcess.Process.RunHook | hook/main.go:53-105 | Main for a hook, in place, with its deferred save |
| HookProcess.Process.LoadState | hook/main.go:107-121 | the loop that loads |
| HookProcess.Process.SaveState | hook/main.go:123-134 | the loop that saves, up to its first error |
| HookProcess.Process.CallUntilError | hook/main.go:97-103 | the loop over functions |
| HookProcess.DiskState.Save | hook/state.go:41-49 | one file written, or not |
| HookProcess.DiskState.Load | hook/state.go:52-61 | a missing file is no data, and a failed read an error |
| PortLedger.RunKeepsLedger | charmbits/httprelation/provider.go:84-157 | over every run with failing tools, only recorded ports are open, and recorded ports are 0 or 1 to 65534 |
| PortLedger.ConfigureKeepsExactly | charmbits/httprelation/provider.go:131-157 | the open ports stop being the recorded ones if and only if the port closed is also the other's |
| PortLedger.ClearRunIsExact | charmbits/httprelation/provider.go:84-95 | over every run in which no port is opened that the other record has, the open ports are exactly the recorded ones |
| PortLedger.ConfigureRecords | charmbits/httprelation/provider.go:131-157 | after a success a configured port of 1 to 65534 is recorded, and if it is new the old one is closed and it is opened; any other changes nothing; the other record stays |
| PortLedger.ConfigureFailsExactly | charmbits/httprelation/provider.go:131-157 | when configuring fails, and what it leaves then |
| PortLedger.ChangeRecords | charmbits/httprelation/provider.go:84-95 | after a success HTTP is as configured, and HTTPS too if it is allowed and the certificate can be read |
| PortLedger.PublishedReadsBack | charmbits/httprelation/provider.go:96-113 | requirers read back the recorded port and the address, or nothing if there is none |
| PortLedger.SwappingPortsClosesOne | charmbits/httprelation/provider.go:144-155 | 80/443 to 443/8443 leaves 443 recorded but closed |
| PortLedger.SavedRunIsRun | charmbits/httprelation/provider.go:84-157 | over runs whose hooks all save, the ports are as if the records were never put away |
| PortLedger.UnsavedKeepsLedgerExactly | charmbits/httprelation/provider.go:84-157 | a hook that does not save leaves an unrecorded port open if and only if it opened one that neither record had |
| PortLedger.UnsavedPortStaysOpen | charmbits/httprelation/provider.go:131-157 | 80 opened by such a hook stays open when the port is moved |
| PortLedger.HTTPProvider.ConfigurePort | charmbits/httprelation/provider.go:131-157 | in place, through the pointer it is given |
| PortLedger.HTTPProvider.ConfigChanged | charmbits/httprelation/provider.go:84-113 | in place, from any state; on success every current relation is told the port recorded, or that there is none |
| SimpleProvider.ProviderAgreement | charmbits/simplerelation/provider.go:46-67 | with a fixed set of attributes, after SetValues succeeds every relation there then or joined since holds exactly its values, whatever the map order and whatever failed before |
| SimpleProvider.StepHolds | charmbits/simplerelation/provider.go:46-67 | the invariant behind it, failing calls included |
| SimpleProvider.SetValuesMerges | charmbits/simplerelation/provider.go:46-60 | SetValues merges the values into what each relation has, up to the first that fails, and records them only if none does |
| SimpleProvider.SetValuesHoldsExactly | charmbits/simplerelation/provider.go:46-60 | with attributes that change: after SetValues succeeds a relation holds exactly the values set if and only if it had no other attributes before |
| SimpleProvider.AgreementAcrossHooks | charmbits/simplerelation/provider.go:28-67 | the same across processes, whose values are saved or rolled back when a hook ends: it holds once the hook that set the values has saved, whatever later hooks fail to save |
| SimpleProvider.UnsavedValuesDiverge | charmbits/simplerelation/provider.go:28-67 | if that hook does not save, a relation that joins next gets the values before |
| SimpleProvider.ParsesExactly | hook/hook.go:272-276 | the tool understands a formatted attribute exactly when its name has no equals sign |
| SimpleProvider.RelationSetAddsPairs | hook/hook.go:265-279 | setting a relation adds exactly the given attributes |
| SimpleProvider.Provider.SetValues | charmbits/simplerelation/provider.go:46-60 | in place: state is assigned only when every relation was set |
| SimpleProvider.Provider.RelationJoined | charmbits/simplerelation/provider.go:62-67 | in place |
| SimpleProvider.Provider.SetRelationWithId | hook/hook.go:265-279 | odd lists are errors, empty ones need no tool |
| SortedStrings.SortedUnique | charmbits/simplerelation/requirer.go:83-89 | a multiset of strings has one sorted enumeration in Go's order |
| SortedStrings.LeqExactly | charmbits/simplerelation/requirer.go:83-89 | in that order a prefix precedes, and else the string with the smaller first differing character |
| SortedStrings.SortedKeys | charmbits/simplerelation/requirer.go:83-89 | collecting a map's keys in any order and sorting them gives one result |
| Requirer.Requirer.Strings | charmbits/simplerelation/requirer.go:80-103 | the result is a function of the unit map alone |
| Requirer.StringsMembers | charmbits/simplerelation/requirer.go:70-79 | it holds exactly the non-empty conversions that do not fail |
| Requirer.StringsAre | charmbits/simplerelation/requirer.go:80-103 | the result is the conversions of exactly the units whose conversion neither fails nor is empty, in order of unit id |
| Requirer.ValuesExactly | charmbits/simplerelation/requirer.go:58-68 | there are values only of exactly one provider, and then its own |
| Requirer.IncompleteExactly | charmbits/mongodbrelation/requirer.go:61-108 | the MongoDB relation is incomplete exactly when no unit has both a host name and a port |
| Requirer.URLIs | charmbits/mongodbrelation/requirer.go:61-108 | else the URL is the scheme and the addresses of the units that have both, with commas |
| Requirer.JoinedHostPortSplits | charmbits/mongodbrelation/requirer.go:69-79 | host and port are read back from an address, the colons of an IPv6 host included |
| Concat.Concatenator.SetContext | example-charms/concat/runhook.go:106-110 | a hook starts from the committed state |
| Concat.Concatenator.Changed | example-charms/concat/runhook.go:112-137 | the new value is the unit's own and its upstream values in order of unit id, whatever the map order |
| Concat.Concatenator.DownstreamJoined | example-charms/concat/runhook.go:139-141 | a joining relation is sent the committed value |
| Concat.Concatenator.Finally | example-charms/concat/runhook.go:153-172 | nothing is done if nothing changed, and the state is committed only when all is published |
| ConcatNetwork.Converges | example-charms/concat/runhook.go:106-172 | on any acyclic network, with hooks of different units overlapping in any way, after d+1 rounds every unit of depth at most d has committed and published exactly its recursive value: in braces and with spaces between, its own and the values of its upstream units, by relation and unit id; the value is defined apart from the functions that compute it |
| ConcatNetwork.ComputesValue | example-charms/concat/runhook.go:112-137 | a unit that sees its upstream units' values under "val" computes its own |
| Concat.UnitValsAre | example-charms/concat/runhook.go:122-133 | the values of a relation are what its units have under "val", in order of unit id |
| ConcatNetwork.RoundSettles | example-charms/concat/runhook.go:153-172 | each round settles one more level, and nothing unsettles |
| ConcatNetwork.ThenNothingIsPublished | example-charms/concat/runhook.go:153-157 | once settled, further hooks write nothing unless a relation joins |
| ConcatNetwork.EndKeepsFaithfulExactly | example-charms/concat/runhook.go:159-171 | a hook leaves something published but not committed if and only if it fails between two relations with a new value |
| ConcatNetwork.StaleIsHealedExactly | example-charms/concat/runhook.go:139-172 | a relation sent something not committed is put right if and only if it is joined anew, or a hook with a new state notifies and sets all relations, or gets as far as this one with only the port new |
| ConcatNetwork.StaleValueStays | example-charms/concat/runhook.go:154-157 | so a later hook that computes the committed value leaves it so |
| ConcatNetwork.FailingHookLeavesStale | example-charms/concat/runhook.go:112-172 | three hooks of one unit, the second of which fails, that leave a relation with a stale value for good |
| ConcatNetwork.InTurnIsRun | example-charms/concat/runhook.go:106-172 | from any state at rest the units can run in turn |
| ConcatNetwork.InTurnRunsAll | example-charms/concat/runhook.go:106-172 | and that is a round |

## Left out

- Sockets, TLS and HTTP serving: a listener in the model is one that was recorded, and says nothing of whether it still accepts.
- JSON: an abstract codec, assumed to round-trip where a theorem needs it.
- Reflection, and relation structs whose fields differ in type: all fields of the model have one type, so the panic of a setter that is handed a field of another type is not modelled; nor are unexported fields.
- What a handler does to the relation value it was constructed from.
- HookModel.EveryGoodHookAgrees: a charm's calls are those of `httpservice.Service`, so `StopAndRemove`, which it does not offer, is not among them; a hook that ends in `Restart` is `RestartKeepsAgreementExactly`.
- ServerAgreement.CrashResume: a save that fails may leave anything on file; nothing is claimed of a server started from that.
- SimpleProvider.AgreementAcrossHooks: a hook that does not save rolls back to what was saved before; a save that fails halfway through the component's own file may leave one that cannot be loaded, and then no hook runs (`NothingIsSavedBeforeHooks`). The same goes for PortLedger.UnsavedKeepsLedgerExactly.
- ConcatNetwork.Converges: the topology is fixed while it settles, every hook in a round succeeds, and what is promised of ports is that each unit commits its own.
- SimpleProvider.ProviderAgreement: the relation-set tool keeps an attribute that is set to the empty string, where Juju forgets it; readers see the empty string either way.
- PortLedger.RunKeepsLedger: a tool call that fails is taken to have no effect, and one that succeeds to have its effect at once and for good. Juju discards the changes of relation-set, open-port and close-port when the hook that made them fails, which the code does not reckon with either way; the inputs FailingHookLeavesStale, UnsavedPortStaysOpen and UnsavedValuesDiverge assume that it does not.
- The real service wrapper in `charmbits/service/implementation.go` and `charmbits/service/server.go`: the service manager has a running bit and the arguments it was installed with.
- Blocking on the notification channel of the mock service manager: the log is unbounded.
- RegistryObjects.Registry.RegisterHook: whether a hook name is valid (registry.go:333-343) is a parameter, as it depends on a pattern from a library that is not part of this model.
- RegisterResource, and the environment that NewContextFromEnvironment reads.
- `cmd/gocharm`, which shells out to the Go tool; `charmbits/resource`, `charmbits/elasticsearchrelation`, the requirer of `charmbits/httprelation`, the other example charms, URLs, logging and status: they would add only easy members.

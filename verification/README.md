# Reloader: a verified model

Reloader is a Kubernetes controller. It keeps event listeners in step with declarative `Config`
objects, serves webhook requests for all of them through one shared HTTP server, and turns secret
rotation events into ordered updates of cluster objects. This project models its stateful pieces in
Dafny and proves what they guarantee together. `dafny verify dfyconfig.toml` checks all of it.

| file | models |
|---|---|
| `Api.dfy` | the part of the Config API that the listeners depend on |
| `Validation.dfy` | validation of webhook path suffixes |
| `RoutePaths.dfy` | printing and parsing of webhook routes |
| `RouteTable.dfy` | the shared server's route table, as a value and as classes |
| `ListenerModel.dfy` | listener reconciliation as a function of state, specification and map order |
| `ListenerIsolation.dfy` | what every call keeps: no leaked route, one Config touched |
| `ListenerBijection.dfy`, `ListenerClash.dfy` | routes and live webhook listeners correspond one to one, and exactly when not |
| `ListenerHistory.dfy`, `HistoryExact.dfy` | what the state owes to the last specifications alone, and exactly when all of it |
| `ListenerSources.dfy` | what is listened to and under which routes, by the fields of the sources |
| `ListenerManager.dfy` | the manager as a class with its loops, proved against the model |
| `WebhookDispatch.dfy` | which source a URL reaches |
| `RouteProtocol.dfy`, `RetryDelays.dfy` | handlers, retry worker, cancellation and shutdown of one route |
| `RouteProgress.dfy` | what one route gets done: publication, retries, shutdown |
| `ConfigLifecycle.dfy`, `ConfigPaths.dfy`, `StaleReads.dfy` | the finalizer protocol interleaved with users, failures and stale reads |
| `ConfigWrites.dfy`, `ConfigProgress.dfy` | what the controller writes, and what reconciliation gets done |
| `ControllerRuns.dfy` | controller, manager and server together |
| `Handlers.dfy`, `EventProcessing.dfy` | filtering, reference checks, updates and the handling of one event |
| `EventDestinations.dfy` | what each kind of destination asks for, by the fields of the API |
| `EventRouting.dfy` | whose destinations an event is handled for |
| `VersionDedup.dfy`, `SqsPipeline.dfy`, `SqsProgress.dfy`, `TcpFraming.dfy` | the stream algorithms of three listeners |

## Premises

- Configs are cluster scoped, so their namespace is empty (`api/v1alpha1/reloader_types.go:108`), and
  their names hold no slash. Parsing back a printed URL also needs nonempty names and slash-free
  suffixes (`api/v1alpha1/source_webhook_types.go:16`).
- JSON encoding followed by SHA-1 is a parameter, `Env.hash`; the lemmas that need it assume that no
  two webhook blocks share a hash and no two blocks of the other types do. A webhook and another
  source may share one, as missing blocks do, since the listener key also holds the type. For URLs
  the hashes are nonempty and slash-free.
- Go visits maps in any order: the orders are part of each `Step`, and `ValidStep` admits all of them.
- Creation and start of listeners other than webhooks succeed as the set `working` says; `failing`
  holds the listeners whose stop reports an error. A nil and an empty list of sources behave alike.
- Routes are counted as uncancelled while the parent context of the manager is live.
- Nobody but the controller removes its finalizer.
- A select with several ready cases takes any of them. The other users of the event channel,
  the poll, the clock, the list calls and the rollout wait are inputs.

## Findings

1. An explicit path suffix equal to the hash of a suffixless webhook source of the same Config passes
   validation, and `Register` then replaces a live route: two live listeners share one route.
   `ListenerClash.BijectiveIffNoClash` gives the exact condition for each call,
   `ListenerClash.RunsStayBijective` for whole runs, `ListenerClash.HashAsSuffixReplaces` an instance.
2. The retry worker never retries. A publication fails only after cancellation, and the worker checks
   the context before it publishes, so no event is ever published by it
   (`RouteProtocol.RetriesNeverHappen`), although the API documentation promises retries.
   `RouteProtocol.FaultyRouteRetries` shows that the same worker would retry other failures. With or
   without a policy the answer is 500 (`RouteProtocol.UnpublishedIsAnswered500`); without one the API
   documentation says 4xx.
3. The route of a suffixless source depends on history: it is served under the bare Config name if it
   was once the only webhook source, and under its hash otherwise. For any specifications the route
   table is a function of them alone if and only if every webhook source has an explicit suffix
   (`HistoryExact.IndependentIffExplicit`); otherwise `HistoryExact.HistoryMatters` gives two runs that
   end with them and serve different tables.
4. TCP framing treats each read by itself. It yields the lines of the stream if and only if every cut
   between reads has a newline on one side; each other cut breaks exactly one line, and a line longer
   than the buffer is always broken.
5. Finalizer safety needs reads that are not too old. A read that shows a Config with the finalizer,
   not deleted and already processed leads straight to starting listeners, and the code does not
   notice that it is old. Such a read ends safely if and only if some version with the finalizer is not
   older than the controller's own last removal of it (`StaleReads.OldReadBreaksSafety`).
   `StaleReads.StaleReadRun` gives a failing run from the start for every specification with a source
   that can be started. All other stale reads are harmless, and with reads of the current object safety
   holds without any premise (`ConfigLifecycle.FreshReadsAreSafe`).
6. The reference check of an ExternalSecret panics on a regular expression that does not compile,
   exactly when no data key and no earlier entry of `dataFrom` matches first
   (`Handlers.ReferencesExact`).
7. The watch on ConfigMaps reports a trigger source that starts with `KubernetesSecret`
   (`VersionDedup.TriggerNamesSecrets`).
8. Events are not handled for all Configs. The handler holds the destinations of the Config that last
   came to the start of its listeners, deleted since or not, and an event that goes through acts on
   exactly what these want (`EventRouting.EventServesLastStarted`). Another Config is served if and only
   if that one wants all that it wants (`EventProcessing.OthersServedIff`):
   `EventRouting.EarlierConfigIsIgnored` has a run with a live Config that is left alone, and
   `EventRouting.GoneConfigIsServed` one with a Config that is gone and still served.

## Model

| member | source | states |
|---|---|---|
| Validation.ValidateUniqueWebhookPathSuffixes | api/v1alpha1/config_validation.go:18-53 | Accepts if and only if the trimmed suffixes of the webhook sources are pairwise distinct; reports as many duplicates as webhooks minus distinct suffixes, in order, each naming the least earlier index with that suffix, and none is missed |
| Validation.TrimSpaceExact | api/v1alpha1/config_validation.go:27-30 | Trimming drops the spaces at both ends and nothing else |
| Validation.SpacesExact | api/v1alpha1/config_validation.go:27-30 | The characters that count as spaces are the 25 of Unicode |
| Validation.AcceptedExact | api/v1alpha1/config_validation.go:18-53 | By the fields of the sources: a specification is accepted if and only if no two sources of type Webhook have the same trimmed suffix, a missing block counting as the empty one |
| Validation.AcceptedRawSuffixesDiffer | api/v1alpha1/config_validation.go:18-53 | In an accepted specification the suffixes as written differ as well |
| RoutePaths.ParseExact | internal/listener/webhook/server.go:71-91 | A path parses to a key if and only if it is the prefix followed by that key and the key is one nonempty segment or two |
| RoutePaths.PrintedRoutesParse | internal/listener/webhook/server.go:97-110 | Every key the printer makes for a well-formed source parses back to itself |
| RoutePaths.OneOwnerName | internal/listener/webhook/server.go:97-110 | A route key determines the name of the Config it belongs to |
| RouteTable.RegisteredKeepsNoLeak | internal/listener/webhook/server.go:161-173 | After Register every route ever built is the current, uncancelled entry of its key or is shut down with its worker finished |
| RouteTable.UnregisteredKeepsNoLeak | internal/listener/webhook/server.go:176-185 | The same after Unregister |
| RouteTable.OtherEntriesKept | internal/listener/webhook/server.go:161-185 | Neither call changes the entry of another key: same route object, same condition |
| RouteTable.Route.constructor | internal/listener/webhook/route.go:49-69 | A new route is uncancelled and has a worker exactly if it has a retry policy |
| RouteTable.Route.Shutdown | internal/listener/webhook/route.go:71-74 | The route ends cancelled and without a worker |
| RouteTable.WebhookServer.Register | internal/listener/webhook/server.go:161-173 | The table with all routes ever built changes as specified, the replaced route being shut down |
| RouteTable.WebhookServer.Unregister | internal/listener/webhook/server.go:176-185 | The entry goes and its route is shut down; an unknown key changes nothing |
| ListenerIsolation.RunsNeverLeak | internal/listener/manager.go:43-172 | In every state of every run no route leaks and every listener matches its key and a route possible for it |
| ListenerIsolation.ManageTouchesOneConfig | internal/listener/manager.go:67-148 | A call changes the listeners of its own Config and routes under its own name only |
| ListenerIsolation.OtherConfigsLeaveAlone | internal/listener/manager.go:43-150 | Any run of calls for other Configs leaves a Config's listeners and route objects as they are |
| ListenerIsolation.DesiredKeysMatch | internal/listener/manager.go:58-65 | Every wanted source is filed under its own key |
| ListenerBijection.KeyInjective | internal/listener/manager.go:175-213 | A listener key determines its type and its hash |
| ListenerBijection.LiveUnderWebhookKey | internal/listener/manager.go:87-91 | A live listener under the key of a webhook source is a webhook listener with that source's configuration |
| ListenerBijection.WebhookRoutes | internal/listener/webhook/server.go:97-110 | With the key of a webhook source, the printed hash segment is the hash of that source |
| ListenerBijection.StopOneBijective | internal/listener/webhook/listener.go:52-55 | Stopping a listener keeps routes and live webhook listeners in one-to-one correspondence |
| ListenerBijection.AddedListenerBijective | internal/listener/webhook/listener.go:46-49 | So does starting one whose route is free |
| ListenerClash.WebhookIsDesired | internal/listener/manager.go:58-65 | In an accepted specification no webhook source is shadowed by another with the same key |
| ListenerClash.StopsRetainWanted | internal/listener/manager.go:67-77 | After the first loop exactly the wanted live listeners remain, unchanged |
| ListenerClash.ManageListenersExact | internal/listener/manager.go:58-143 | After an accepted call a Config has exactly the wanted listeners that were live, as they were, and those that could be started, whatever the order |
| ListenerSources.ListenedTypes | internal/listener/manager.go:175-201 | A source gets a listener key if and only if its type is one of nine |
| ListenerSources.SharedKeyIff | internal/listener/manager.go:175-213 | Two sources share a key if and only if they have the same type and the same block for that type; other blocks do not count |
| ListenerSources.OtherSourceIsLive | internal/listener/manager.go:127-142 | After an accepted call every source of another type than webhook that was live or can be started has a live listener with its type and its block, under its key |
| ListenerSources.DifferentBlocksTwoListeners | internal/listener/manager.go:58-142 | Two sources of one type with different blocks, such as two queues, end with two different live listeners |
| ListenerSources.LiveListenerHasSource | internal/listener/manager.go:67-142 | Every live listener after the call is that of a source of the specification, with that source's configuration |
| ListenerSources.NewRouteExact | internal/listener/manager.go:79-110 | A webhook source that the call starts is served under its suffix, else under the bare Config name if no other source of the specification is a webhook, else under its hash |
| ListenerSources.UnservedWebhook | internal/listener/manager.go:93-108 | A webhook source is not started without a server or with a Kubernetes block instead of its own |
| ListenerSources.EntryIffLive | internal/listener/manager.go:144-148 | After an accepted call the manager has an entry for the Config if and only if that has a live listener |
| ListenerSources.StopAllKeepsEntries | internal/listener/manager.go:153-172 | StopAll leaves every entry there was, empty |
| ListenerClash.StartsNeverReplace | internal/listener/manager.go:86-143 | Without a clash no start finds its route taken |
| ListenerClash.BijectiveIffNoClash | internal/listener/manager.go:43-150 | An accepted call keeps the one-to-one correspondence, and leaves the replace branch of Register untaken, if and only if no suffix spells the hash route of a suffixless source |
| ListenerClash.RunsStayBijective | internal/listener/manager.go:43-172 | Over every run in any map order: the replace branch was never taken if and only if no call clashed, and then routes and live webhook listeners of all Configs correspond one to one, each with its own configuration |
| ListenerClash.NoHashSuffixIsClashFree | internal/listener/webhook/server.go:93-110 | Specifications in which no suffix spells a hash never clash, in any state |
| ListenerClash.HashAsSuffixReplaces | internal/listener/webhook/server.go:161-173 | A concrete accepted specification for which a route is replaced and the correspondence breaks |
| ListenerHistory.LiveKeysFollowLastSpec | internal/listener/manager.go:58-143 | If the creates and starts of accepted calls succeed, the live keys of each Config after any run are those of its last accepted specification |
| ListenerHistory.HistoryIndependence | internal/listener/manager.go:58-143 | Two runs with the same last specifications, all with explicit suffixes, end with the same listeners and the same route table |
| ListenerHistory.OrdersDoNotMatter | internal/listener/manager.go:67-143 | Without a clash the map orders have no effect on listeners and routes |
| ListenerHistory.StopAllStopsAll | internal/listener/manager.go:153-172 | StopAll leaves no Config a live listener |
| ListenerHistory.WantedListenerKept | internal/listener/manager.go:88-91 | A live listener that is still wanted is kept as it is |
| HistoryExact.AloneGetsBareName | internal/listener/manager.go:79-110 | Any startable suffixless webhook source that is alone in its Config is served under the bare Config name |
| HistoryExact.BesideAnotherGetsHash | internal/listener/webhook/server.go:97-110 | Beside another webhook source it is served under its hash |
| HistoryExact.CallsKeep | internal/listener/manager.go:88-91 | One more call for each of any number of Configs keeps every listener that is still wanted, route included |
| HistoryExact.NothingUnderBareName | internal/listener/webhook/server.go:97-110 | Where a suffixless source has its hash route, nothing is served under the bare name |
| HistoryExact.HistoryMatters | internal/listener/manager.go:79-110 | For any specifications with a suffixless webhook source, two runs that end with them serve different tables: one the source under the bare name, the other nothing there |
| HistoryExact.IndependentIffExplicit | internal/listener/manager.go:43-172 | For accepted, startable specifications without a clash, of any number of Configs: the route table is a function of the last specifications if and only if every webhook source has an explicit suffix |
| HistoryExact.EndsLikeFresh | internal/listener/manager.go:43-172 | Any run whose last specifications have explicit suffixes ends with the listeners and routes of a fresh manager given only those, in one call for each Config |
| ListenerManager.Manager.ManageListeners | internal/listener/manager.go:43-150 | The new state of listeners and routes is that of the model for some possible map order; a rejected specification changes nothing |
| ListenerManager.Manager.Reconcile | internal/listener/manager.go:50-150 | The accepted case of the above |
| ListenerManager.Manager.Collect | internal/listener/manager.go:56-65 | Collects the wanted sources by key, the later of two with one key winning |
| ListenerManager.Manager.CountWebhooks | internal/listener/manager.go:79-84 | Counts the wanted webhook sources in any visiting order |
| ListenerManager.Manager.StopExcept | internal/listener/manager.go:67-77 | Stops exactly the unwanted listeners of one Config, each once, and reports exactly the failing stops |
| ListenerManager.Manager.StartMissing | internal/listener/manager.go:86-143 | Visits every wanted key once and starts what is missing, through the shared server for webhooks |
| ListenerManager.Manager.StartIfMissing | internal/listener/manager.go:87-142 | One turn of that loop with all its skips |
| ListenerManager.Manager.StopAll | internal/listener/manager.go:153-172 | Stops all listeners of all Configs in some order, keeps the empty inner maps, and reports exactly the failing stops |
| WebhookDispatch.HandledReachesOneSource | internal/listener/webhook/server.go:48-69 | A handled request reaches exactly one source of one Config, with its configuration, and its path is the prefix and the route |
| WebhookDispatch.PrintedUrlIsHandled | internal/listener/webhook/server.go:48-110 | The URL printed for a live webhook listener is answered with that listener's configuration |
| WebhookDispatch.AnswersExact | internal/listener/webhook/server.go:48-69 | When each of the three answers is given: 405 exactly for another verb than POST; handled exactly if the path is the prefix and a key of the table; not found exactly for any other POST |
| RouteProtocol.RunsAccounted | internal/listener/webhook/route.go:111-230 | In every reachable state the event of a request is in one place only: with its handler, with the worker, or published once |
| RouteProtocol.OneEventPerRequest | internal/listener/webhook/route.go:111-125 | Over every interleaving a request puts at most one event on the channel, an answer is 204 exactly if the handler published that event itself, and a handler that did has no other answer to give |
| RouteProtocol.RetriesNeverHappen | internal/listener/webhook/route.go:168-230 | In no run does the worker attempt a publication; the published events are those of requests answered 204 or about to be |
| RouteProtocol.FaultyRouteRetries | internal/listener/webhook/route.go:193-230 | If publishing could fail otherwise, every run that leaves the route serving with an idle worker could go on with a request whose event only the worker publishes |
| RouteProtocol.StoppingMakesProgress | internal/listener/webhook/route.go:71-74 | After cancellation under the server lock every handler or worker step lowers a measure and no other step raises it |
| RouteProtocol.ShutdownIsBounded | internal/listener/webhook/route.go:71-74 | The number of handler and worker steps after that is bounded, however they are scheduled |
| RouteProtocol.ShutdownIsNeverStuck | internal/listener/webhook/route.go:178-230 | Until shutdown may return the worker itself can take a step, without any help from handlers or consumers |
| RouteProtocol.ShutdownCompletes | internal/listener/webhook/route.go:71-74 | When no handler or worker step is left, shutdown can return |
| RouteProtocol.HandlerIsNeverStuck | internal/listener/webhook/route.go:111-125 | Once cancelled, every request that is not answered has a step of its handler's own, whatever channel and worker do |
| RouteProtocol.ShutdownAnswersAll | internal/listener/webhook/route.go:71-125 | When no handler or worker step is left, every request has been answered |
| RouteProtocol.UnpublishedIsAnswered500 | internal/listener/webhook/route.go:111-123 | In every run a request that was accepted and whose event its handler did not publish is answered 500, never 4xx, with a retry policy or without |
| RouteProtocol.RunsStopForGood | internal/listener/webhook/route.go:71-74 | In every reachable state a returned shutdown means a finished worker, and a begun one a cancelled route |
| RouteProtocol.SilentAfterShutdown | internal/listener/webhook/route.go:71-74 | After shutdown has returned every further publication, if any, is by a handler |
| RouteProgress.AcceptedIsPublished | internal/listener/webhook/route.go:168-176 | In every reachable state of every route, with a policy or without: an accepted request with room on the channel can be published and answered 204, its event being published once and not before |
| RouteProgress.NewRequestIsServed | internal/listener/webhook/route.go:76-126 | After every run that leaves the route serving with room on the channel, a new request can be served with 204 |
| RouteProgress.NewRequestIsRejected | internal/listener/webhook/route.go:79-109 | And after every run that leaves it serving, turned away with each of the other answers, publishing nothing |
| RouteProgress.WaitsIffFull | internal/listener/webhook/route.go:111-126 | Before cancellation an unanswered request waits if and only if it is to be published and the channel is full |
| RouteProgress.CancelledIsAnswered500 | internal/listener/webhook/route.go:111-123 | Once the parent context ends, in any state, an accepted request can end with 500 and without an event, by itself or through the worker |
| RouteProgress.ChannelBalances | internal/listener/webhook/route.go:168-176 | In every run the events waiting and taken are those published by this route and by others, and never more than 256 wait |
| RouteProgress.GivesUpAfter | internal/listener/webhook/route.go:178-230 | On a route whose publications fail the worker goes on to the next attempt until it has made M of them, and then gives up |
| RouteProgress.RetrySucceeds | internal/listener/webhook/route.go:207-215 | Each of these attempts may succeed instead, and then publishes the event once |
| RouteProgress.AttemptsBounded | internal/listener/webhook/route.go:193-230 | In no run does the worker make more than M attempts for one request |
| RouteProgress.WorkerWaitsIffFull | internal/listener/webhook/route.go:193-230 | Before cancellation a worker with a request waits if and only if it is to publish and the channel is full |
| RouteProgress.CanShutDown | internal/listener/webhook/route.go:71-74 | From every state of a serving route shutdown can begin and return, with steps of the worker alone in between and nothing published |
| RetryDelays.Retry | internal/listener/webhook/route.go:193-230 | At most M = max(1, min(MaxRetries, 10)) attempts; it stops at the first success, exactly at M when exhausted, or when cancelled; the delays are the schedule up to the last attempt planned |
| RetryDelays.AttemptsAllowed | internal/listener/webhook/route.go:178-179 | A policy of n retries allows n attempts for n from 1 to 10, one below and ten above |
| RetryDelays.DelayIsExact | internal/listener/webhook/route.go:232-238 | No delay overflows 64-bit nanoseconds |
| RetryDelays.ExhaustedDelay | internal/listener/webhook/route.go:193-238 | M attempts schedule 2^(M+1)-4 seconds of exponential delay, at most 2044, or M-1 seconds of linear delay |
| ConfigLifecycle.EmptySpecStopsAll | internal/controller/reloader_controller.go:113-137 | The calls for a missing or deleted Config leave it no live listener |
| ConfigLifecycle.RemovalKeeps | internal/controller/reloader_controller.go:128-144 | Taking the finalizer off keeps the invariant |
| ConfigLifecycle.WriteKeeps | internal/controller/reloader_controller.go:138-176 | So does every write of the controller, successful or failed |
| ConfigLifecycle.CallKeeps | internal/controller/reloader_controller.go:113-187 | So does every call to the listener manager |
| ConfigLifecycle.RunsKeepInvariant | internal/controller/reloader_controller.go:108-190 | The invariant holds in every reachable state, over all interleavings with users, failed writes, stale reads and restarts; only a read that leads straight to starting listeners must be no older than the last removal of the finalizer |
| ConfigLifecycle.FinalizerSafety | internal/controller/reloader_controller.go:108-190 | A Config with live listeners exists and carries the finalizer, in every reachable state |
| ConfigLifecycle.FinalizerByVersions | internal/controller/reloader_controller.go:128-153 | In every state that keeps the invariant the object carries the finalizer if and only if some version with it is not older than its last removal |
| ConfigLifecycle.FreshReadsAreSafe | internal/controller/reloader_controller.go:108-190 | If every read returns the object as it is, safety holds over all interleavings without a premise |
| ConfigLifecycle.CacheIsLastStarted | internal/controller/reloader_controller.go:178-187 | In every run the event handler holds the destinations of the Config that last came to the start of its listeners, in a version written for it; not-found, deletion and adding the finalizer leave them |
| ConfigLifecycle.VanishesOnlyWhenStopped | internal/controller/reloader_controller.go:128-144 | A Config vanishes only when it has no live listener |
| ConfigWrites.RemovalExact | internal/controller/reloader_controller.go:138-144 | In every run, however old the reads: removing the finalizer removes no other; the object vanishes if and only if it carried no other, and otherwise stays as it was |
| ConfigWrites.AdditionExact | internal/controller/reloader_controller.go:146-153 | Adding the finalizer keeps every other one and all else of the object |
| ConfigWrites.MarkingExact | internal/controller/reloader_controller.go:156-176 | Marking the object as processed changes nothing else of it |
| ConfigWrites.ControllerRespectsUsers | internal/controller/reloader_controller.go:108-190 | Over any stretch of any run without user writes: no finalizer but the controller's own comes or goes, sources, destinations and deletion stay, and an object vanishes only if it was being deleted and nobody else held it |
| ConfigWrites.UsersAreFree | internal/controller/reloader_controller.go:108-153 | The interleavings cover every creation, every update that leaves the controller's finalizer, and every deletion, in every state |
| ConfigWrites.ReadsAreFree | internal/controller/reloader_controller.go:113-126 | And reads of nothing or of any version ever written, and restarts, at any time |
| ConfigWrites.StoppingStopsAll | internal/controller/reloader_controller.go:70-78 | When the controller stops, in any state, no Config keeps a live listener and no object changes |
| ConfigProgress.BranchesExact | internal/controller/reloader_controller.go:128-176 | The version read opens exactly one of four branches, by its finalizer, deletion and annotation |
| ConfigProgress.ReconcileIsNeverStuck | internal/controller/reloader_controller.go:113-190 | A reconciliation that is not over always has a step of its own, even if its writes fail |
| ConfigProgress.ReconciliationsEnd | internal/controller/reloader_controller.go:113-190 | In every run a read of a Config leads to at most two more steps for it |
| ConfigProgress.Converges | internal/controller/reloader_controller.go:108-190 | After any run with recent reads an idle object that is not being deleted and has an accepted specification can be brought by the controller alone to carry the finalizer, be as its users left it, have its destinations with the event handler, and have exactly the wanted listeners that were live or can be started |
| ConfigProgress.LetsGo | internal/controller/reloader_controller.go:128-144 | And an idle one that is being deleted can be let go: no live listener is left, and it is gone if and only if nobody else holds it |
| StaleReads.OldReadBreaksSafety | internal/controller/reloader_controller.go:113-190 | In any state a read that leads straight to starting listeners ends safely if and only if some version with the finalizer is not older than its last removal, in particular if the version read is not |
| StaleReads.StaleReadRun | internal/controller/reloader_controller.go:108-190 | Every accepted specification with a source that can be started has a run from the initial state, with recent reads but for the last, after which the Config is gone and has live listeners |
| ControllerRuns.ManagerNeverClashes | internal/controller/reloader_controller.go:108-190 | If users write no clashing suffix, the manager of any controller run is in a state that a run of calls without a clash reaches |
| ControllerRuns.HandledRequestHasLiveConfig | internal/controller/reloader_controller.go:108-190 | In any controller run a handled webhook request belongs to exactly one source, is handled with its configuration, and its Config exists with the finalizer |
| Handlers.IsResourceWatched | internal/handler/deployment/handler.go:86-132 | The loops fail if and only if a selector does not compile or a needed namespace cannot be fetched, and accept if and only if namespace, labels and name are each unrestricted or matched |
| Handlers.MatchesAnyNamespaceSelector | internal/util/resource_watch.go:14-33 | Accepts if and only if there is no selector or one of them matches; fails only if the namespace is needed and missing |
| Handlers.Filter | internal/handler/deployment/handler.go:44-54 | Returns the watched objects in order, skipping those whose check fails |
| Handlers.FilteredInOrder | internal/handler/deployment/handler.go:44-54 | The filter goes through the list from front to back |
| Handlers.ScanExact | internal/handler/externalsecret/handler.go:153-166 | The scan panics if and only if a pattern that does not compile comes before any match, and finds nothing if and only if nothing matches and all patterns compile |
| Handlers.ReferencesExact | internal/handler/externalsecret/handler.go:140-182 | For every object of every kind: the check panics if and only if it meets a pattern that does not compile before a match, and otherwise succeeds if and only if one of its entries refers to the secret |
| Handlers.RefersByEntries | internal/handler/deployment/handler.go:210-246 | What refers to the secret, entry by entry and for each kind: both kinds of reference of a container's environment, data keys, extracted and found keys, templates, selected and pushed keys |
| Handlers.AnnotatedExact | internal/handler/deployment/handler.go:61-83 | An update writes the two reloader annotations, changes nothing else, and is idempotent |
| Handlers.AnnotationsByKind | internal/handler/externalsecret/handler.go:56-74 | The names of the two annotations for Deployments and for all other kinds, with the value each gets |
| Handlers.EssenceDecides | internal/handler/externalsecret/handler.go:77-123 | Reloader annotations decide neither what is watched nor what is referenced |
| EventProcessing.EventActsOn | internal/handler/processor.go:33-85 | An event that goes through attempts to update exactly the objects that some cached destination wants: of its kind, listed for the event, watched, and referring to the secret |
| EventProcessing.AttemptedIsWanted | internal/handler/processor.go:33-85 | However it ends, an event attempts to update no other object |
| EventProcessing.UnwantedIsUnchanged | internal/handler/processor.go:33-85 | And changes no other object |
| EventProcessing.OthersServedIff | internal/handler/processor.go:29-65 | Destinations outside the cache are served by an event that goes through if and only if the cached ones want all that they want |
| EventDestinations.DeploymentDestination | internal/handler/deployment/handler.go:30-55 | A destination of type Deployment aborts the event without its deployment block or list, and else asks for exactly the Deployments that the block watches and that refer to the secret, in the namespace of the event if it has one |
| EventDestinations.ExternalSecretDestination | internal/handler/externalsecret/handler.go:29-50 | The same for ExternalSecret and its block, in all namespaces, without those whose check panics |
| EventDestinations.PushSecretDestination | internal/handler/pushsecret/handler.go:28-49 | The same for PushSecret and its block |
| EventDestinations.WorkflowDestination | internal/handler/workflow/handler.go:29-56 | The same for WorkflowRunTemplate and its block; all that is watched is asked for |
| EventDestinations.UnknownDestination | internal/handler/processor.go:37-41 | A destination of any other type is passed over |
| EventDestinations.WantsByFields | internal/handler/processor.go:33-65 | What any destination wants, by its type and the block of that type |
| EventDestinations.DeploymentIsUpdatedIff | internal/handler/processor.go:33-85 | An event that goes through attempts a Deployment if and only if it refers to the secret, is in the namespace of the event, and a cached destination of type Deployment watches it |
| EventDestinations.MissingBlockFails | internal/handler/processor.go:51-54 | An event with a destination that lacks the block of its type never goes through |
| EventDestinations.EveryClusterCanBeListed | internal/handler/deployment/handler.go:36-43 | For every cluster, event and cache there are list calls that succeed, so the results on events cover them all |
| EventRouting.HandleAfterUpdates | internal/handler/processor.go:29-85 | After any number of updates an event is handled for the destinations given last |
| EventRouting.EventServesLastStarted | internal/controller/reloader_controller.go:178-202 | After any controller run an event that goes through acts on exactly what the Config wants that last came to the start of its listeners, existing or not |
| EventRouting.EarlierConfigIsIgnored | internal/controller/reloader_controller.go:178-187 | For any two Configs there is a run in which the first exists with live listeners and an object that only it wants is neither attempted nor changed |
| EventRouting.GoneConfigIsServed | internal/controller/reloader_controller.go:113-153 | For any Config there is a run in which it is gone and an event still acts on what it wants |
| EventProcessing.EventHandler.HandleEvent | internal/handler/processor.go:33-85 | Cluster, trace and outcome are those of a plan made on the cluster as it was at the start and then carried out |
| EventProcessing.EventHandler.HandleDestination | internal/handler/processor.go:35-54 | One destination: skipped without a provider, aborting without criteria or list, else its jobs in order |
| EventProcessing.EventHandler.HandleObjects | internal/handler/processor.go:55-82 | The inner loop carries out the jobs of the filtered objects until one aborts |
| EventProcessing.EventHandler.HandleObject | internal/handler/processor.go:56-81 | One object: check, update, wait; no other object changes |
| EventProcessing.EventRefinesPlan | internal/handler/processor.go:33-85 | The event goes through if and only if nothing aborts, panics or fails its wait, and then the attempted updates are all planned targets in order; otherwise they are exactly the targets up to the job at which it stops; exactly the successfully updated objects change, only in their two annotations; the trace tells what the outside answered; rollout is sequential |
| EventProcessing.StoppingPoint | internal/handler/processor.go:50-81 | An event that does not go through stops at one job: all targets up to it were attempted, all earlier waits succeeded, and that job aborts, panics or fails its wait, with the outcome that belongs to it |
| EventProcessing.TraceIsTruthful | internal/handler/processor.go:70-81 | Every action in the trace has the result that the cluster gave |
| EventProcessing.DestinationTargetsExact | internal/handler/processor.go:50-65 | A destination of any of the four kinds wants updated exactly the listed objects of its kind that it watches and that refer to the secret |
| EventProcessing.DestinationJobsAlike | internal/handler/processor.go:50-65 | Updates made for earlier destinations do not change what a later one asks for |
| EventProcessing.AttemptsFollowPlan | internal/handler/processor.go:55-82 | For any jobs: the event goes through if and only if nothing aborts, and then every target was attempted in order |
| EventProcessing.OnlyUpdatedChange | internal/handler/deployment/handler.go:61-83 | Exactly the objects whose update succeeded change, to their annotated form |
| EventProcessing.RolloutIsSequential | internal/handler/processor.go:70-81 | Every successful update is followed at once by the wait for the same object, and a failed wait is the last action |
| VersionDedup.Watcher.Observe | internal/listener/kubernetes/listener.go:80-110 | One callback: the version map and the events after each branch, the event with the object's name and namespace |
| VersionDedup.Watcher.ObserveAll | internal/listener/kubernetes/listener.go:80-110 | Over a whole stream the events sent are those of the observations that change a version |
| VersionDedup.EventsTellChanges | internal/listener/kubernetes/listener.go:86-109 | Events and observations that change a version correspond one to one and in order, each event with the name and the namespace of the object observed |
| VersionDedup.TriggerNamesSecrets | internal/listener/kubernetes/listener.go:103-108 | The trigger source of an event names the type of its notification source if and only if that is a Secret; a ConfigMap and a Secret of one name give the same event |
| VersionDedup.LastVersionIsLastSeen | internal/listener/kubernetes/listener.go:90-91 | The remembered version is the last one in which the object was seen and not being deleted |
| VersionDedup.EventsNumberChanges | internal/listener/kubernetes/listener.go:86-109 | The events with the name and namespace of an object number its version changes between consecutive observations, none for the first |
| VersionDedup.OtherObjectsHaveNoEffect | internal/listener/kubernetes/listener.go:90-109 | Streams that show an object alike give it the same number of events |
| SqsPipeline.RunsKeepBatches | pkg/listener/aws/aws_sqs.go:68-140 | In every reachable state the received batches are those handed over and at most one pending, with deletions attempted in the same order |
| SqsPipeline.HandedIsReceivedPrefix | pkg/listener/aws/aws_sqs.go:68-140 | Batches handed over are a prefix of the nonempty ones received, missing at most the last; every message handed over had its deletion attempted before |
| SqsPipeline.RunsKeepEvents | internal/listener/sqs/listener.go:44-95 | In every reachable state the published events are those of the messages the consumer is done with, some left out only after the parent context ended |
| SqsPipeline.PublishedFollowsHanded | internal/listener/sqs/listener.go:44-95 | Published events are an in-order subsequence of the parsed messages handed over, and all of them once the consumer is between batches and the parent context is live |
| SqsPipeline.StoppedProducerIsBounded | pkg/listener/aws/aws_sqs.go:75-101 | Over any run after the stop the producer takes at most six steps of its own and one for each message of a poll in progress, and starts no other poll |
| SqsPipeline.StoppedProducerNeverBlocks | pkg/listener/aws/aws_sqs.go:75-101 | Once stopped, the producer always has a step of its own until it has ended |
| SqsProgress.NextMessageExact | internal/listener/sqs/listener.go:72-95 | A message whose body can be parsed is published as what it is parsed to or, once the parent context ended, dropped; any other is skipped |
| SqsProgress.PublishedIsParsed | internal/listener/sqs/listener.go:44-95 | With a live parent context and the consumer between batches, events and handed over messages that can be parsed correspond one to one and in order |
| SqsProgress.BatchGoesThrough | pkg/listener/aws/aws_sqs.go:75-140 | From any state with a polling producer and a free consumer a nonempty batch can go all the way: all deleted, handed over, exactly its events published in order |
| SqsProgress.PollsAgain | pkg/listener/aws/aws_sqs.go:82-101 | After an empty or a failed poll the producer can poll again |
| SqsProgress.ProducerWaitsIff | pkg/listener/aws/aws_sqs.go:75-101 | While it is not stopped the producer waits if and only if it offers a batch and the consumer is busy |
| SqsProgress.ConsumerWaitsIff | internal/listener/sqs/listener.go:46-69 | The consumer waits if and only if it is between batches and there is no batch, no error and no closed channel |
| SqsProgress.StoppedPipelineEnds | pkg/listener/aws/aws_sqs.go:68-101 | After any run a stopped pipeline can end, the producer by itself and then the consumer |
| TcpFraming.PiecesExact | internal/listener/tcp/listener.go:127-127 | Splitting loses nothing: the pieces hold no newline and joining them gives the bytes back |
| TcpFraming.LinesAtCut | internal/listener/tcp/listener.go:118-133 | A cut with a newline on one side keeps the lines; any other turns one line into two |
| TcpFraming.BrokenLines | internal/listener/tcp/listener.go:111-136 | The messages processed outnumber the lines of the stream by exactly the unclean cuts |
| TcpFraming.FramingExact | internal/listener/tcp/listener.go:111-136 | For a stream of any length the messages are exactly its nonempty lines in order if and only if every cut is clean |
| TcpFraming.MessagesFit | internal/listener/tcp/listener.go:110-133 | No message is longer than the buffer |
| TcpFraming.LongLineIsBroken | internal/listener/tcp/listener.go:110-136 | A line longer than the buffer is never among the messages, however the stream is cut: some cut is unclean |
| TcpFraming.Split | internal/listener/tcp/listener.go:127-127 | The slices of the buffer show the pieces of the bytes read |
| TcpFraming.ProcessAll | internal/listener/tcp/listener.go:128-133 | The nonempty slices are processed in order while the buffer still holds them |
| TcpFraming.ProcessRead | internal/listener/tcp/listener.go:118-134 | One read into the reused buffer processes the lines of that read |
| TcpFraming.ReadMessages | internal/listener/tcp/listener.go:108-138 | The loop processes the lines of each read up to the first failure or cancellation |

## Left out

- Goroutines and channels of `route.go`, the SQS listener and `Reconcile` are state machines of atomic
  steps on values; their update in place and Go's memory model are not captured.
- RouteTable.Route.Shutdown: treats the wait for the worker as one step, because the server holds its lock for all of it; that the wait ends is proved in `RouteProtocol`, where the lock appears as the phase that admits no new request.
- Completion of shutdown and of the SQS producer is a bound together with the absence of a stuck
  state; fair scheduling of Go is taken for granted, and so is that a poll in progress returns.
- ConfigLifecycle.FinalizerSafety: assumes of reads that lead straight to starting listeners that they are no older than the controller's own last removal of the finalizer, because the code does not check it; the exact condition, a failing run and safety without the premise for current reads are proved.
- ConfigLifecycle.VanishesOnlyWhenStopped: makes the same assumption on reads, because it rests on FinalizerSafety.
- ConfigProgress.Converges: makes the same assumption on reads for the run before; it and LetsGo show that the controller can get there, not that Go schedules it so, because scheduling is taken for granted.
- ControllerRuns.HandledRequestHasLiveConfig: makes the same assumption on reads, because it rests on FinalizerSafety.
- The update of the destinations and of the listeners at the end of `Reconcile` are one step.
- Several events at a time: each event is handled alone, and other writers show only as failed updates.
  Lists are taken from the cluster as it is, not from a stale cache.
- Update, match and wait strategies, which the code only logs; the polling clock of the rollout wait,
  whose result is an input.
- Webhook authentication, payload parsing, secret fetching, kubeconfig and CA handling.
- Internals of JSON, gjson, SHA-1, regular expressions, label selectors and time formatting: all are
  functions given from outside.
- Event Grid, Pub/Sub, Vault and mock listeners, which are mostly I/O, and the SDK wrappers below them.
- HTTP server start and stop, leader election, metrics, logging, the texts of error messages and
  `cmd/main.go`.
- Invalid UTF-8 in strings; a Dafny string is a sequence of code points.

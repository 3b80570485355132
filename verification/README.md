# A model of the plugin manager, the accept loop and the connection lifecycle of flexnet

Dafny models of the concurrent parts of flexnet, with proofs about all inputs, all runs and all
reachable states. Lines are cited as path and line of the repository.

## What is modelled

**Plugin dependency scheduler** (`NameOrder`, `PluginCatalog`, `PluginLinks`, `PluginManagement`,
`PromiseGraph`, `PluginLifetimes`, `PluginScenarios`, `PluginStartup`). Reading the `[plugins/plugin]` sections; filling `requiredBy` while iterating over
the very map that is being changed; the `CHECK`s and loops of `startup` and `shutdown`, which decide
what each load and unload chain waits on; and all runs of those chains, where chains start and finish
in any order their promises allow. Plugins that cannot be loaded or instantiated are a set `broken`.

**Connection entities** (`Entities`, `ChildLinks`, `NetworkRegistry`, `RegistryTasks`). The registry is
a map from ids to the components of an entity plus the intrusive child lists. `Entities` says what each
of the seven systems of an update tick does to one entity and what a whole tick does; `SafeRegistry` is
the object that does it in place, with loops over views and pointer surgery on the lists. A `DCHECK` or
`CHECK` on the state is a `requires` or an `assert`.

**Channels** (`Listening`, `Detection`, `HttpSession`, `WsSession`). The listener and the three channels
as objects, each with a specification of what every completion handler does and posts.

**The running server** (`Connections`, `Server`, `Lifecycle`, `RegistryQueue`, `AcceptLoop`, `Safety`,
`AcceptLoopRuns`, `ServerRuns`, `SocketOwnership`, `SocketRuns`, `Outcomes`, `StaleReuse`, `Leaks`, `Closing`). The acceptor strand and
the registry sequence are FIFO queues; configuring, stopping, updating, accepting, detecting, HTTP and
WebSocket completions happen in any order with any outcome. `Server.After(run)` is the state after a
sequence of events, and the results hold for every such run. History variables record the stage of
every connection; no step depends on them. `Closing` adds the wait for an empty registry: from a server
at rest, rounds of `closeNetworkResources`, updates and closes in any order.

**Request paths** (`HttpPath`). `pathConcat` and the decisions of `handleRequest`, with dot-segment
removal as in section 5.2.4 of RFC 3986.

## Contracts assumed of code that is not in the repository

The helpers of `basis` and EnTT are not part of this model; these are the contracts used.

- `exclude_not_constructed` skips entities with `DelayedConstruction` or `NeedToDestroyTag` (compare
  `examples/server/plugins/plugin_NetworkEntity/src/ECS/systems/unused_child_list.hpp:45-50`).
- `populateDelayedConstructionComponents` adds `DelayedConstruction`; on cache reuse the entity is left
  without `UnusedTag`.
- The id of a destroyed entity is never valid again.
- The child list helpers behave as `tests/ECS_hierarchies.test.cpp` pins them field by field.
- The two flags that disable systems for testing are off.
- Clean reuse (`Server.CleanReuse`): when the allocator takes over an unused entity, no task about it is
  queued, no WebSocket operation is outstanding on it, and it has no children. Runs without reuse need
  no hypothesis. `StaleReuse` shows that it cannot be dropped: a reuse of an entity without children is
  spoilt exactly when a mark-unused of it is still queued or a close of its WebSocket is outstanding, and
  states in which each of the three parts fails are reachable.

## Where the code and its documentation differ

The model follows the code.

- A comment says that removing `[plugins]` loads all plugins
  (`examples/server/src/plugin_manager/plugin_manager.hpp:71`), but without that section nothing from
  the configuration is loaded (`examples/server/src/plugin_manager/plugin_manager.hpp:276-289`).
- The diagram and the table of the listener's states differ on leaving `PAUSED`
  (`include/flexnet/websocket/listener.hpp:337-382`); the table is used.
- A failure to bind or listen leaves the acceptor open with the state machine uninitialized
  (`src/websocket/listener.cpp:264-296`): `AcceptorExactly` for every run, `FailedBindStaysOpen` is one.
- A dependency on an unknown plugin is meant to stop `startup`; the nameless entry inserted for it
  lets one missing name through in some configurations (`ChecksPassExactlyWhen`).
- A plugin given by path that has the name of a configured one replaces its links, and then unloading
  need not nest: `NestsExactlyWhen` and `StartedNestsExactlyWhen` say when it does,
  `ReplacedDependencyUnloadsFirst` is a run in which it does not.
- `shutdown` never resolves when a plugin that failed to instantiate requires a loaded one
  (`ShutdownResolvesExactlyWhen`; `BrokenRequirerHangsShutdown` is such a run).
- A connection may stay in the registry of the running server forever: when the acceptor was closed while
  the token was with its entity (`OrphanLeftExactlyWhen`, `OrphanStaysForever`; `OrphanIsReachable` is such a
  run), or when its WebSocket read an empty or too big message (`StalledStaysForever`, `StalledIsReachable`).
  `RegistryEmptiesExactlyWhen` says that, before closing, nothing else stays behind.
- The wait for an empty registry asks every WebSocket to end before it looks, which frees the stalled ones
  but not every orphan: it ends exactly when no orphan lacks a WebSocket channel (`WaitEndsExactlyWhen`).
  An orphan without one keeps it waiting forever (`OrphanKeepsWaiting`), and `WaitMayNeverEnd` leaves one.

## Model

| member | source | states |
|---|---|---|
| NameOrder.KeysInOrder | examples/server/src/plugin_manager/plugin_manager.hpp:338-342 | Iterating over a `std::map` visits every key once, in ascending order |
| PluginCatalog.LoadPluginsMetadata | examples/server/src/plugin_manager/plugin_manager.cc:100-200 | Succeeds if and only if every titled section names a dynamic or a static plugin, else reports the first that does not; the result is the exact transpose of what the sections say |
| PluginCatalog.ConfigCatalogReadsConfig | examples/server/src/plugin_manager/plugin_manager.cc:107-182 | The map holds exactly the given titles; of sections with the same title the last one decides |
| PluginCatalog.PopulateRequiredBy | examples/server/src/plugin_manager/plugin_manager.cc:184-197 | The loop that inserts into the map it iterates over leaves titles and dependencies as they were; the multiplicity of a in `requiredBy(b)` is that of b in `dependsOn(a)`, for all a and b |
| PluginCatalog.PushKeepsPartial | examples/server/src/plugin_manager/plugin_manager.cc:190-196 | One `push_back` adds one requirer, in name order, and keeps all other counts |
| PluginCatalog.TransposeIsUnique | examples/server/src/plugin_manager/plugin_manager.cc:184-199 | That result is determined by the configuration alone |
| PluginLinks.ChecksPassExactlyWhen | examples/server/src/plugin_manager/plugin_manager.hpp:298-425 | `startup` passes its `CHECK`s if and only if every dependency of a plugin no path replaces is a section, a path or the empty name, and at most one entry is nameless |
| PluginLinks.ChecksPassExactlyWhenClosed | examples/server/src/plugin_manager/plugin_manager.hpp:338-425 | Without extra paths: if and only if every dependency is a configured plugin or the empty name |
| PluginLinks.CheckedConfigIsWellLinked | examples/server/src/plugin_manager/plugin_manager.hpp:418-444 | A configuration that passes without extra paths has entries named by key, closed links and `requiredBy` transposing `dependsOn` |
| PluginLinks.OverlayKeepsLinksExactlyWhen | examples/server/src/plugin_manager/plugin_manager.hpp:298-330 | Extra plugins by path keep the links consistent if and only if no dependency joins a replaced plugin to a kept one |
| PluginLinks.StartedIsAccepted | examples/server/src/plugin_manager/plugin_manager.hpp:338-444 | Whatever passes the `CHECK`s is, by name, a map with closed dependencies; the results on loading ask for no more |
| PluginLinks.StartedIsOverlaid | examples/server/src/plugin_manager/plugin_manager.hpp:282-330 | Whatever sections and paths lead to, requirers exist, and `requiredBy` and `dependsOn` reverse each other except at plugins given by path; the results on unloading ask for no more |
| PluginLinks.StartedEntries | examples/server/src/plugin_manager/plugin_manager.hpp:298-330 | What the manager works with, in terms of the sections and the paths |
| PluginManagement.AddExtraPaths | examples/server/src/plugin_manager/plugin_manager.hpp:298-330 | Succeeds if and only if every path exists, and adds exactly those plugins; else reports a path that does not |
| PluginManagement.AwaitAll | examples/server/src/plugin_manager/plugin_manager.hpp:422-444 | The fold over promises awaits each named promise, or reports a name without one |
| PluginManagement.PluginManager.Startup | examples/server/src/plugin_manager/plugin_manager.hpp:143-656 | Succeeds if and only if paths exist and `CHECK`s pass; the promises, counters, chains and loaded plugins it leaves; what the error says otherwise |
| PluginManagement.PluginManager.RegisterPromises | examples/server/src/plugin_manager/plugin_manager.hpp:338-398 | One pair of promises and zero counters per plugin name; fails if and only if two entries share a name |
| PluginManagement.PluginManager.WireLoading | examples/server/src/plugin_manager/plugin_manager.hpp:400-653 | Every load chain waits on exactly the promises of its dependencies; broken plugins get no chain |
| PluginManagement.PluginManager.Shutdown | examples/server/src/plugin_manager/plugin_manager.hpp:659-778 | Every unload chain of a loaded plugin waits on exactly the unload promises of its requirers |
| PluginManagement.PluginManager.OnLoaded | examples/server/src/plugin_manager/plugin_manager.hpp:791-800 | Counts one more load of that plugin |
| PluginManagement.PluginManager.OnUnloaded | examples/server/src/plugin_manager/plugin_manager.hpp:803-812 | Counts one more unload of that plugin |
| PluginManagement.StartupBuildsLoadGraph | examples/server/src/plugin_manager/plugin_manager.hpp:400-655 | For every map `startup` accepts, what it leaves is the graph of load waits used by the results on runs |
| PluginManagement.ShutdownBuildsUnloadGraph | examples/server/src/plugin_manager/plugin_manager.hpp:672-777 | For every such map, what `shutdown` leaves is the graph of unload waits |
| PluginManagement.ShutdownChecksPass | examples/server/src/plugin_manager/plugin_manager.hpp:686-713 | `shutdown` finds a promise for every requirer, whatever paths were added |
| PluginManagement.UnloadGraphReversesLoadGraph | examples/server/src/plugin_manager/plugin_manager.hpp:686-713 | Between loadable plugins unloading waits along the reversed dependencies |
| PromiseGraph.EventsHappenOnce | examples/server/src/plugin_manager/plugin_manager.hpp:586-641 | No task starts, finishes or reports twice, in any run |
| PromiseGraph.StartFollowsPath | examples/server/src/plugin_manager/plugin_manager.hpp:418-444 | When a task starts, everything it transitively waits on has finished |
| PromiseGraph.StuckFinishedExactlySound | examples/server/src/plugin_manager/plugin_manager.hpp:400-655 | Deadlock characterisation: in a run that can go no further, exactly the tasks whose closure has no cycle and no missing chain have finished, once each |
| PromiseGraph.UnfinishedIsUnsound | examples/server/src/plugin_manager/plugin_manager.hpp:400-655 | A task with a sound closure cannot be the one that is stuck |
| PromiseGraph.RunsAreShort | examples/server/src/plugin_manager/plugin_manager.hpp:586-641 | Every run has at most three events per chain |
| PromiseGraph.RunsCanGetStuck | examples/server/src/plugin_manager/plugin_manager.hpp:586-641 | Every run can be continued until nothing more can happen |
| PluginLifetimes.LoadedExactlyWhenSound | examples/server/src/plugin_manager/plugin_manager.hpp:400-655 | The plugins loaded in the end are exactly those whose dependencies hold no cycle and no broken plugin; each counter is 1, the others 0 |
| PluginLifetimes.AcyclicLoadsCompletely | examples/server/src/plugin_manager/plugin_manager.hpp:400-655 | An acyclic configuration whose plugins all instantiate loads completely and the startup promise resolves |
| PluginLifetimes.LoadsNest | examples/server/src/plugin_manager/plugin_manager.hpp:607-641 | Loading a starts only after everything it transitively depends on has loaded |
| PluginLifetimes.LifetimesNest | examples/server/src/plugin_manager/plugin_manager.hpp:686-774 | When shutdown waits for the startup promise: if a transitively depends on b, b loads before a, a loads before it unloads and, where dependencies are recorded, a unloads before b |
| PluginLifetimes.EarlyShutdownMayUnloadFirst | examples/server/src/plugin_manager/plugin_manager.hpp:715-737 | Without that order a plugin may start unloading before it has finished loading, whatever was loaded so far |
| PluginLifetimes.UnloadedExactlyWhenSound | examples/server/src/plugin_manager/plugin_manager.hpp:672-777 | The plugins unloaded in the end are exactly those no broken plugin and no cycle transitively requires, once each, extra paths or not |
| PluginLifetimes.ShutdownResolvesExactlyWhen | examples/server/src/plugin_manager/plugin_manager.hpp:582-777 | After an orderly start the shutdown promise resolves if and only if no broken plugin is recorded as requiring a loadable one |
| PluginLifetimes.RunsAreShort | examples/server/src/plugin_manager/plugin_manager.hpp:143-778 | No run has more than six events per loadable plugin and the call of `shutdown` |
| PluginScenarios.NestsExactlyWhen | examples/server/src/plugin_manager/plugin_manager.hpp:672-774 | Unloading nests in every orderly run if and only if startup can never resolve or every dependency of a loadable plugin is recorded in the other direction |
| PluginScenarios.StartedNestsExactlyWhen | examples/server/src/plugin_manager/plugin_manager.hpp:298-330 | In terms of sections and paths: if and only if startup can never resolve or no loadable plugin depends on one given by path |
| PluginScenarios.ReplacedDependencyUnloadsFirst | examples/server/src/plugin_manager/plugin_manager.hpp:298-330 | A run in which a dependency that is also given by path starts unloading while its dependent is loaded |
| PluginScenarios.BrokenRequirerHangsShutdown | examples/server/src/plugin_manager/plugin_manager.hpp:672-777 | A run in which startup resolves and shutdown can do nothing |
| PluginScenarios.ShutdownMayHang | examples/server/src/plugin_manager/plugin_manager.hpp:672-777 | Such a run exists whenever startup can resolve although a broken plugin requires a loadable one |
| PluginScenarios.CompleteUnload | examples/server/src/plugin_manager/plugin_manager.hpp:659-778 | Whenever every loadable plugin can load, some orderly run goes on until unloading can go no further |
| PluginStartup.StartFromSections | examples/server/src/plugin_manager/plugin_manager.hpp:143-656 | All of `startup` succeeds if and only if every title is that of a dynamic or a static plugin, paths exist and dependencies are provided; then the manager holds the load graph and zero counters |
| PluginStartup.ShutdownStarted | examples/server/src/plugin_manager/plugin_manager.hpp:659-778 | `shutdown` of such a manager succeeds and leaves the unload graph |
| PluginStartup.CountersAreReports | examples/server/src/plugin_manager/plugin_manager.hpp:791-812 | Counting the reports of a run with `onLoaded` or `onUnloaded` gives the counters the results on runs speak of |
| PluginStartup.SectionsLoadExactlyWhenAcyclic | examples/server/src/plugin_manager/plugin_manager.cc:107-199 | From sections to runs: when all plugins instantiate and every dependency is a section, loading resolves if and only if no chain of sections is a cycle; then every plugin loads and counts once |
| ChildLinks.RepresentedIsDistinct | tests/ECS_hierarchies.test.cpp:192-596 | The relationship components represent duplicate-free lists, disjoint across parents |
| ChildLinks.RepresentationIsUnique | tests/ECS_hierarchies.test.cpp:192-596 | They represent only one assignment of lists |
| ChildLinks.PrependKeepsRepresentation | tests/ECS_hierarchies.test.cpp:192-330 | Linking a child in front puts it at the head of the represented list and touches no other list |
| ChildLinks.RemoveKeepsRepresentation | tests/ECS_hierarchies.test.cpp:357-560 | Unlinking deletes exactly that child; the last one takes the components of the parent with it |
| ChildLinks.DropKeepsRepresentation | tests/ECS_hierarchies.test.cpp:621-654 | Dropping all children of a parent leaves the other lists as they were |
| NetworkRegistry.SafeRegistry.PrependChildEntity | tests/ECS_hierarchies.test.cpp:193-216 | The pointer surgery refines putting the child in front |
| NetworkRegistry.SafeRegistry.ForeachTopLevelChild | tests/ECS_hierarchies.test.cpp:220-240 | Iteration visits exactly the list, in order |
| NetworkRegistry.SafeRegistry.HasChildAtTopLevel | tests/ECS_hierarchies.test.cpp:598-603 | True if and only if the child is in the list |
| NetworkRegistry.SafeRegistry.RemoveChildFromTopLevel | tests/ECS_hierarchies.test.cpp:357-517 | Removes exactly that child, or returns false with nothing changed |
| NetworkRegistry.SafeRegistry.RemoveTopLevelChildrenFromView | tests/ECS_hierarchies.test.cpp:619-654 | Empties the list of every entity of the view and no other |
| NetworkRegistry.SafeRegistry.UpdateNewConnections | examples/server/plugins/plugin_NetworkEntity/src/ECS/systems/accept_connection_result.cc:136-182 | Handles every pending accept result of a constructed entity, each once, and nothing else: a failed accept has its socket closed and its entity unused, any other gets a detect channel with its socket |
| NetworkRegistry.SafeRegistry.UpdateSSLDetection | examples/server/plugins/plugin_NetworkEntity/src/ECS/systems/ssl_detect_result.cc:143-184 | The same for detect results, whose stream becomes that of an HTTP channel |
| NetworkRegistry.SafeRegistry.UpdateUnusedChildList | examples/server/plugins/plugin_NetworkEntity/src/ECS/systems/unused_child_list.hpp:69-149 | Tagging, promoting and detaching, in place, amount to the three-phase specification; no child is tagged twice |
| Entities.ThreePhasesReclaimExactlyWhen | examples/server/plugins/plugin_NetworkEntity/src/ECS/systems/unused_child_list.hpp:97-149 | The three phases equal "doom all children of each unused parent and empty its list" if and only if no such parent is such a child; no internal tag is left |
| NetworkRegistry.SafeRegistry.UpdateDelayedConstructionJustDone | examples/server/plugins/plugin_NetworkEntity/src/ECS/systems/delayed_construction_just_done.cc:19-57 | Forgets that construction was just done |
| NetworkRegistry.SafeRegistry.UpdateDelayedConstruction | examples/server/plugins/plugin_NetworkEntity/src/ECS/systems/delayed_construction.cc:19-58 | Finishes delayed construction; the tag it emplaces was absent |
| NetworkRegistry.SafeRegistry.UpdateUnusedSystem | examples/server/plugins/plugin_NetworkEntity/src/ECS/systems/unused.cc:32-79 | Tags every unused entity for destruction |
| NetworkRegistry.SafeRegistry.UpdateCleanupSystem | examples/server/plugins/plugin_NetworkEntity/src/ECS/systems/cleanup.cc:34-77 | Destroys exactly the tagged entities, counts them and leaves no dangling list component |
| NetworkRegistry.SafeRegistry.UpdateOnRegistryThread | examples/server/plugins/plugin_NetworkEntity/src/network_entity_updater.cc:157-195 | The seven systems in order refine the specification of a tick; every check on the way holds |
| Entities.TickAt | examples/server/plugins/plugin_NetworkEntity/src/network_entity_updater.cc:171-193 | What one tick does to one entity: who survives, and with which components |
| Entities.TickLeavesNoGarbage | examples/server/plugins/plugin_NetworkEntity/src/network_entity_updater.cc:171-193 | After a tick nothing is unused or dying; exactly the unused connections and their children are gone; children survive exactly with their parent |
| Entities.TickAccounting | examples/server/plugins/plugin_NetworkEntity/src/network_entity_updater.cc:171-193 | Entities lost are the unused parents plus the sum of their child counts |
| Entities.TickKeepsConsistent | examples/server/plugins/plugin_NetworkEntity/src/network_entity_updater.cc:157-195 | A tick keeps the registry invariant |
| Entities.ConstructionTakesOneTick | examples/server/plugins/plugin_NetworkEntity/src/ECS/systems/delayed_construction.cc:45-55 | Survivors just done with construction are exactly those that were delayed |
| NetworkRegistry.SafeRegistry.AllocateTcpEntity | examples/server/plugins/plugin_TcpServer/src/tcp_entity_allocator.cc:206-259 | Takes over an unused connection, which is delayed again, if there is one, else creates one; changes nothing else |
| NetworkRegistry.SafeRegistry.SetAcceptConnectionResult | src/websocket/listener.cpp:669-712 | Records the result on the entity, marked as unhandled |
| NetworkRegistry.SafeRegistry.SetSSLDetectResult | src/http/detect_channel.cpp:295-332 | Records the detect result, marked as unhandled |
| NetworkRegistry.SafeRegistry.HandleWebsocketUpgrade | src/http/http_channel.cpp:723-768 | The stream becomes that of a new WebSocket channel and leaves the HTTP channel |
| NetworkRegistry.SafeRegistry.AllocateReceivedData | src/websocket/ws_channel.cpp:439-479 | A received message becomes an entity of its own at the head of its connection's list |
| NetworkRegistry.SafeRegistry.MarkAsUnused | src/http/http_channel.cpp:512-529 | Tags the entity unused; idempotent, and harmless after destruction |
| RegistryTasks.RunTask | src/websocket/listener.cpp:334-406 | Running any task on the registry object does what the server's steps say that task does |
| Listening.Listener.ConfigureAndRunAcceptor | src/websocket/listener.cpp:264-297 | The acceptor ends open unless opening failed, the state machine started and the loop begun exactly when all went well |
| Listening.Listener.DoAccept | src/websocket/listener.cpp:299-332 | Posts the allocation if and only if the acceptor is open |
| Listening.Listener.AsyncAccept | src/websocket/listener.cpp:409-462 | Accepts with that entity if and only if the acceptor is open |
| Listening.Listener.OnAccept | src/websocket/listener.cpp:589-667 | Posts the result as it was reported, then the next round, whatever the outcome |
| Listening.Listener.StopAcceptor | src/websocket/listener.cpp:481-536 | Closes the acceptor, and follows the transition table |
| Detection.Detector.OnDetected | src/http/detect_channel.cpp:220-293 | The stream leaves with the posted result, once, and the result says what was detected and whether the socket is still open |
| HttpSession.SessionEndsOnce | src/http/http_channel.cpp:416-800 | Over every sequence of completions one operation is under way and nothing was posted, or the session ended once: by eof with the socket closed and one mark-unused, or by handing over the very socket it was given |
| HttpSession.LastCompletionDecides | src/http/http_channel.cpp:596-800 | Which completion does what, in every session: it ended by eof exactly on a failure, an end of stream or a response that closes, is handed over exactly on an upgrade, writes after a request and reads after a response |
| HttpSession.PostingEndsTheRun | src/http/http_channel.cpp:596-721 | Nothing can complete after the completion that posted the end of the session |
| HttpSession.ReadsAndWritesAlternate | src/http/http_channel.cpp:596-800 | Half-duplex: reads and writes alternate, starting with a read |
| HttpSession.HttpChannel.DoEof | src/http/http_channel.cpp:472-510 | Closes the socket and posts one mark-unused |
| HttpSession.HttpChannel.OnRead | src/http/http_channel.cpp:596-721 | An end of stream or a failure ends the session by eof, an upgrade hands it over, a request starts a write |
| HttpSession.HttpChannel.OnWrite | src/http/http_channel.cpp:770-800 | A failure or a response that closes ends the session by eof, any other starts the next read |
| WsSession.MessagesPrecedeMarkUnused | src/websocket/ws_channel.cpp:257-437 | Several mark-unused may be posted, but no message after the first; the stream never leaves the channel |
| WsSession.LastCompletionDecides | src/websocket/ws_channel.cpp:257-437 | In every session a read is outstanding exactly after an accept or a message, a close exactly after a failure on an open stream |
| WsSession.StalledExactlyWhen | src/websocket/ws_channel.cpp:401-417 | A session has nothing outstanding although no mark-unused was posted if and only if it last read an empty or too big message |
| WsSession.PostsAreCounted | src/websocket/ws_channel.cpp:257-479 | As many mark-unused as failures, as many messages posted as read, and nothing else |
| WsSession.EofsAreCounted | examples/server/plugins/plugin_TcpServer/src/main_plugin_logic.cc:252-268 | With eofs from outside: as many mark-unused as failures and such eofs, and closes outstanding are those started and not completed |
| WsSession.OwnStepsAreTheSession | src/websocket/ws_channel.cpp:257-437 | Without them the two descriptions of a session agree on every sequence of completions |
| WsSession.MessageFollowsMarkExactlyWhen | examples/server/plugins/plugin_TcpServer/src/main_plugin_logic.cc:252-268 | When a session may also be ended from outside: a message is posted behind a mark-unused if and only if an eof from outside came before a message was read |
| WsSession.WsChannel.DoEof | src/websocket/ws_channel.cpp:313-364 | Closes an open connection and always posts mark-unused |
| WsSession.WsChannel.OnRead | src/websocket/ws_channel.cpp:385-437 | A message is posted and read on from, an empty or too big one stops the reading, a failure posts mark-unused and closes an open stream |
| Connections.HttpFits | src/http/http_channel.cpp:596-800 | A completion moves an HTTP session to a stage its entity fits, and posts exactly what that stage waits for |
| Connections.WsFits | src/websocket/ws_channel.cpp:257-437 | The same for WebSocket sessions |
| Connections.SurvivorFits | examples/server/plugins/plugin_NetworkEntity/src/network_entity_updater.cc:171-193 | An entity that survives a tick fits the stage the tick moves its connection to |
| Lifecycle.TickKeepsRegistry | examples/server/plugins/plugin_NetworkEntity/src/network_entity_updater.cc:157-195 | A tick moves every connection forward only, and loses only ended sessions and failed results |
| RegistryQueue.TickKeepsQueue | examples/server/plugins/plugin_NetworkEntity/src/network_entity_updater.cc:120-195 | Whatever a tick handles or destroys, every queued task still fits its connection |
| AcceptLoop.AllocationFindsNoLacking | src/websocket/listener.cpp:639-666 | By FIFO order no result is outstanding when an allocation runs |
| Safety.FirstTaskIsReady | src/websocket/listener.cpp:669-685 | The next registry task meets its checks in every state that satisfies the invariant |
| Safety.ReusedWasMarked | examples/server/plugins/plugin_TcpServer/src/tcp_entity_allocator.cc:232-256 | What the allocator takes over is an ended session whose results were all handled |
| Safety.StepKeeps | src/websocket/listener.cpp:264-712 | Every step of every kind keeps the invariant of the whole server |
| Safety.ReachableIsInvariant | src/websocket/listener.cpp:264-712 | It holds in every reachable state |
| AcceptLoopRuns.SingleToken | src/websocket/listener.cpp:299-462 | At most one of configure posted, `doAccept` posted, allocate posted, `asyncAccept` posted and accept outstanding exists; the state checks of the next strand task hold |
| AcceptLoopRuns.AtMostOneLacksItsResult | src/websocket/listener.cpp:334-712 | At most one allocated entity lacks a result, and allocations are recordings plus that one |
| AcceptLoopRuns.RecordedBeforeNextAllocation | src/websocket/listener.cpp:639-666 | The result of one connection is recorded before the next entity is allocated |
| AcceptLoopRuns.AcceptedEntityStaysValid | src/websocket/listener.cpp:355-406 | In every interleaving with ticks, the entity the accept loop works with is alive, not unused, not dying and has its strand, until its result is recorded |
| AcceptLoopRuns.StopAccounting | src/websocket/listener.cpp:481-536 | After the stop: at most three further steps of the loop and one further allocation; in the end allocations exceed results by one if the token was at allocate or `asyncAccept`, else by none |
| AcceptLoopRuns.OrphanLeftExactlyWhen | src/websocket/listener.cpp:417-423 | After a stop an entity is left without a result if and only if the token was with an entity when the stop ran |
| AcceptLoopRuns.OrphanStaysForever | src/websocket/listener.cpp:417-423 | No step of the running server destroys such an entity |
| AcceptLoopRuns.OrphanIsReachable | src/websocket/listener.cpp:417-423 | A run in which a stop overtakes the first allocation and leaves an orphan |
| ServerRuns.EveryTaskIsReady | src/websocket/listener.cpp:669-685 | In every run each registry task finds its entity valid with what its checks demand; only a mark-unused may come after the end |
| ServerRuns.EveryTickIsClean | examples/server/plugins/plugin_NetworkEntity/src/network_entity_updater.cc:171-193 | In every reachable state a tick leaves no orphan and no garbage, and the count of lost entities adds up |
| ServerRuns.ReuseMeetsTheChecks | examples/server/plugins/plugin_TcpServer/src/tcp_entity_allocator.cc:127-180 | Both result `CHECK`s hold for whatever the allocator could pick; its component whitelist is violated exactly by children |
| ServerRuns.EndedSessionIsMarked | src/http/http_channel.cpp:472-510 | An ended session is unused or has its mark-unused queued |
| SocketOwnership.StepMoves | src/http/detect_channel.cpp:256-292 | Every step moves each socket from one holder to a later one, or leaves it |
| SocketOwnership.StepCopiesNothing | src/http/http_channel.cpp:629-668 | No step leaves one socket with two holders |
| SocketRuns.SocketHasOneOwner | src/http/http_channel.cpp:629-768 | In every reachable state the socket of each live connection is with the one holder its stage names and nowhere else |
| SocketRuns.SocketsMoveForward | src/http/detect_channel.cpp:256-292 | Ownership only moves forward: accept task, accept result, detector, detect task, detect result, HTTP, upgrade task, WebSocket |
| SocketRuns.UnhandledResultsOwnSockets | examples/server/plugins/plugin_NetworkEntity/src/ECS/systems/accept_connection_result.cc:107-112 | A result without its "unused result" tag is exactly one that still owns a socket |
| SocketRuns.ResultsAreHandledOnce | examples/server/plugins/plugin_NetworkEntity/src/ECS/systems/accept_connection_result.cc:150-178 | No tick handles a result an earlier tick handled |
| SocketRuns.PendingResultIsHandledNow | src/websocket/listener.cpp:691-711 | A pending accept result is handled by the next tick once its entity is constructed, and waits unchanged before; the connection lives on exactly when the accept succeeded, with its socket in a detect channel |
| SocketRuns.PendingDetectIsHandledNow | examples/server/plugins/plugin_NetworkEntity/src/ECS/systems/ssl_detect_result.cc:63-184 | A pending detect result is handled by the very next tick: its stream becomes that of an HTTP channel, or the detection failed and the connection is gone |
| Outcomes.AcceptWaitsAsReported | src/websocket/listener.cpp:589-712 | In every interleaving the outcome and the socket of an accept wait as they were reported, in a task and then in the registry, until a tick handles them |
| Outcomes.AcceptOutcome | examples/server/plugins/plugin_NetworkEntity/src/ECS/systems/accept_connection_result.cc:40-134 | From `onAccept` to that tick: the connection lives on if and only if the accept succeeded with an open socket, and then that socket is being detected |
| Outcomes.DetectWaitsAsReported | src/http/detect_channel.cpp:220-332 | The same waiting for what a detection reported |
| Outcomes.DetectOutcome | examples/server/plugins/plugin_NetworkEntity/src/ECS/systems/ssl_detect_result.cc:40-141 | From `onDetected` to the tick that handles it: the connection lives on if and only if detection succeeded and the socket is still open, with the handshake as detected and HTTP reading from that socket |
| Outcomes.UpgradeOutcome | src/http/http_channel.cpp:629-768 | From the request for an upgrade on, its task waits with the stream until it runs, and then that stream is shaking hands as a WebSocket |
| Outcomes.MessageOutcome | src/websocket/ws_channel.cpp:419-479 | From a message that was read on, its task waits until it runs, and then a new message is first in the list of that connection and nothing else changed |
| Outcomes.EndOutcome | src/http/http_channel.cpp:472-529 | From a completion that ends a session on, its mark-unused waits until it runs, and then the entity is unused or was destroyed |
| Outcomes.AcceptorExactly | src/websocket/listener.cpp:264-536 | In every run the acceptor is open exactly when configuring opened it and no stop ran since; the state machine is started exactly when configuring was complete |
| Outcomes.FailedBindStaysOpen | src/websocket/listener.cpp:264-297 | A run that ends with the acceptor open, the state machine uninitialized and nothing to do |
| StaleReuse.ReuseIsSpoiltExactlyWhen | src/websocket/ws_channel.cpp:355-383 | After a reuse some continuation gets the accept loop to accept with an unused or destroyed entity if and only if a mark-unused of it was still queued or a close of its WebSocket outstanding |
| StaleReuse.StaleMarkIsReachable | src/websocket/ws_channel.cpp:298-399 | A run in which a failed read and then a failed close post two mark-unused for one WebSocket and the second outlives the session |
| StaleReuse.OutstandingCloseIsReachable | src/websocket/ws_channel.cpp:298-364 | A run in which the allocator can pick an entity while the close of its WebSocket, after a failed read, is still outstanding and no mark-unused is queued |
| StaleReuse.ChildrenAreReachable | examples/server/plugins/plugin_TcpServer/src/tcp_entity_allocator.cc:134-143 | A run in which the allocator can pick an entity with a child, which its whitelist forbids |
| Leaks.StalledStaysForever | src/websocket/ws_channel.cpp:401-417 | A WebSocket that read an empty or too big message is freed by no step of the running server |
| Leaks.StalledIsReachable | src/websocket/ws_channel.cpp:401-417 | A run for each of the two that gets a connection there |
| Leaks.RestExactlyWhen | examples/server/plugins/plugin_NetworkEntity/src/network_entity_updater.cc:120-155 | Nothing is queued and nothing outstanding exactly when only a stop or an update can happen |
| Leaks.ReachableMessagesAreChildren | src/websocket/ws_channel.cpp:439-479 | In every reachable state every entity that is no connection is in the list of one |
| Leaks.LiveAtRest | examples/server/plugins/plugin_NetworkEntity/src/network_entity_updater.cc:171-193 | If nothing is queued or outstanding after two updates of the running server, the connections left are exactly the orphans and the stalled WebSockets |
| Leaks.RegistryEmptiesExactlyWhen | examples/server/plugins/plugin_NetworkEntity/src/network_entity_updater.cc:171-193 | Then, before closing begins, the registry is empty if and only if there is neither |
| Closing.ClosingIsKept | examples/server/plugins/plugin_TcpServer/src/main_plugin_logic.cc:192-295 | Over every sequence of rounds, updates and closes: connections without a WebSocket channel stay and stay in use; after a round every other one is unused or has its end posted |
| Closing.EofsFollowTheSession | src/websocket/ws_channel.cpp:298-364 | What an eof and the completion of a close do while closing is what they do to a session ended from outside |
| Closing.EmptiesExactlyWhen | examples/server/plugins/plugin_TcpServer/src/main_plugin_logic.cc:297-349 | Once a round is done the next update empties the registry if and only if every connection had a WebSocket channel when closing began |
| Closing.WaitEndsExactlyWhen | examples/server/plugins/plugin_TcpServer/src/main_plugin_logic.cc:297-349 | From any server at rest: if and only if every orphan was taken over with the channel of an ended WebSocket |
| Closing.OrphanKeepsWaiting | examples/server/plugins/plugin_TcpServer/src/main_plugin_logic.cc:244-275 | Any other orphan is in the registry however long the wait goes on |
| Closing.RoundCanBeDone | examples/server/plugins/plugin_TcpServer/src/main_plugin_logic.cc:192-295 | However far closing went, it can go on until a round is done |
| Closing.WaitMayNeverEnd | src/websocket/listener.cpp:417-423 | A run after which such an orphan is left and the server is at rest |
| HttpPath.PathConcat | src/http/http_channel.cpp:64-89 | The base without one trailing slash, followed by the path |
| HttpPath.HandleRequest | src/http/http_channel.cpp:195-227 | Which requests are refused and why, which file is served otherwise, and that it lies in the root |
| HttpPath.ServedPathStaysInRoot | src/http/http_channel.cpp:211-227 | For every non-empty root without ".." and every accepted target, the resolved root is a segment prefix of the resolved path |
| HttpPath.JoinedResolves | src/http/http_channel.cpp:64-89 | Resolving a base joined with an absolute target is what the base keeps, followed by the resolved target |
| HttpPath.DotDotWouldLeave | src/http/http_channel.cpp:209-227 | A target with ".." that would resolve outside the root, and is refused |

## Left out

- The WebSocket send queue: nothing ever sets its busy flag, so the code does not decide the serialisation it describes; and `sendAsync` has no caller in the repository, so no write ever completes. A failed write would reach `doEof` as a failed read does (`src/websocket/ws_channel.cpp:624-646`).
- Boost.Asio and Boost.Beast themselves, TLS detection, the WebSocket handshake, timeouts and rate limits: completions with any outcome.
- Corrade plugin loading, `splitExtension` and the parsing of files: a plugin is instantiated or broken.
- The start of a load chain without dependencies is immediate in the code; in the model it may also come later, which only adds runs.
- `Listener::pause` (not implemented), errors of cancelling or closing the acceptor, and branches for a stopped `io_context`.
- The fail points, which turn an accept or a detection into a failed one, and the plug point for received messages.
- `closeNetworkResources` (`examples/server/plugins/plugin_TcpServer/src/main_plugin_logic.cc:192-295`), which asks every entity that has a WebSocket channel to end, is no event of `Server`: `Closing` has it from a server at rest, `MessageFollowsMarkExactlyWhen` on one session.
- Closing.WaitEndsExactlyWhen: starts from a server at rest; what closing does beside accepts, detections and reads that are still going on is not modelled.
- AcceptLoopRuns.AcceptedEntityStaysValid: speaks of runs without `closeNetworkResources`, which could tag an entity the loop still holds if that was taken over with its old WebSocket channel.
- ServerRuns.EveryTaskIsReady: speaks of runs without `closeNetworkResources`, after which a message may be queued behind a mark-unused.
- WsSession.MessagesPrecedeMarkUnused: speaks of a session that only its own accept, reads and closes end; `MessageFollowsMarkExactlyWhen` says what an eof from `closeNetworkResources` changes, and a failed write of `sendAsync`, which nothing calls, would be one more such eof.
- Leaks.StalledStaysForever: speaks of the running server, without `closeNetworkResources`, which ends every WebSocket session, and without `sendAsync`, which nothing calls and whose failed write would end the session.
- AcceptLoopRuns.OrphanStaysForever: speaks of the running server, without `closeNetworkResources`; `WaitEndsExactlyWhen` says which orphans that frees.
- Leaks.LiveAtRest: speaks of the running server, before `closeNetworkResources`.
- Leaks.RegistryEmptiesExactlyWhen: likewise; `WaitEndsExactlyWhen` is the result on the wait.
- Completions of a WebSocket close that arrive after the entity and its channel were destroyed.
- `onAccept` posts its two tasks in one step of the model; nothing else of the accept loop can run between them.
- The counter of queued updates, which only feeds a warning.
- A section without a title fails a `DCHECK` and is skipped otherwise; the model skips it.
- What the responses of `handleRequest` contain once the file was opened, and the branch of `pathConcat` for the other path separator.
- HttpPath.ServedPathStaysInRoot: says nothing for a root that resolves to the empty path, such as "." or "/", because every path lies under it; the server itself uses "/" (`src/http/http_channel.cpp:680`).
- The state machine table by itself, `MimeType`, signal handling, thread pools, consoles, statistics, metrics and logging.
- Thread-safety annotations and weak pointers: a step runs on the queue its task was posted on.

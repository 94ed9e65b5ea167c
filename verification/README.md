# dun-tunel edge: a verified model

The edge of the tunnel service takes viewers' input and forwards it to a browser in a
container, keeps three kinds of configuration in step with its live sessions (rathole services,
Caddy routes, upstream ports), relays media through an SFU, checks viewers' cookies against a
revocation list, and reports the bytes it carried. This project models the stateful parts of
that in Dafny and proves what they keep over every run.

Verify with `dafny verify dfyconfig.toml`.

## How it is organised

| file | what it models |
|---|---|
| `RateLimiter.dfy`, `InputBridge.dfy`, `Clipboard.dfy` | the input bridge: sliding-window limiter, concurrent forwarding, UTF-8 truncation |
| `RatholeConfig.dfy`, `ServiceRegistry.dfy` | the rendered rathole file and the registry that writes it under a lock |
| `RouteIds.dfy`, `CaddyRoutes.dfy`, `AdminClient.dfy`, `TlsPolicies.dfy` | Caddy's routes array as a map, the client that edits it request by request, the TLS policy rewrite |
| `Ports.dfy`, `Tunnels.dfy` | ports, services and routes under concurrent create, rollback, deprovision and restart; what one create or deprovision leaves and undoes |
| `SfuInput.dfy` | `produce_input_data`, `consume` and the viewer operations as steps of concurrent calls |
| `SourceMonitor.dfy` | the tick that re-creates a starved producer |
| `GateRevocation.dfy`, `ViewerAuth.dfy`, `TtlCache.dfy` | the polled revocation mirror, the cookie decision, the shared look-aside cache |
| `Bandwidth.dfy`, `SequenceStore.dfy` | delta reporting over a lossy channel, sequence numbers on disk |
| `Common.dfy`, `Text.dfy` | options, time units, trimming |

Code that changes objects is a class whose methods are proved against functions; code whose
calls interleave at awaits is a state machine (`Step`, `Enabled`, `After`, `Exec`) whose runs
use the same functions. Clocks, disks, the network, Caddy, dun-api and mediasoup are parameters
or steps of the environment.

## Where the code and its documentation differ

The model follows the code.

- `control/request` is documented to be sent exactly once per session, before the events; the
  flag flips before the send, so another event can overtake it, and a failed send is never
  repeated (`InputBridge.RequestFirstIff`, `InputBridge.LostRequestIsNeverRepeated`). At most
  one is ever sent.
- The limiter is documented to bound the events forwarded in a rolling second; it bounds
  admissions, and events wait for the sink after it, so an event held back at all can make it 61
  (`InputBridge.SendsAreBoundedIff`).
- The callback client is documented with waits of 200 ms, 600 ms and 1.8 s; the third attempt
  is the last, so it only ever waits 200 ms and 600 ms (`Bandwidth.Send`).
- Both "atomic" writers remove the target before the rename, so the file can also be absent
  (`ServiceRegistry.Registry.AtomicWrite`, `SequenceStore.CutOffSave`).
- The shared cache is documented to propagate a revocation within its time to live of 5 s; a
  slow fetch adds its timeout (`TtlCache.PassesIffBeforeEffect`).
- The overlap test for TLS policies also strips names that merely end in the same letters
  (`TlsPolicies.OverlapIsNotExact`), and keeps a policy without subjects, which applies to every
  host beside ours (`TlsPolicies.OnlyOursCovers`).
- The monitor is documented to re-create a producer that has gone silent; it compares samples
  with the largest one since tracking began, so a session provisioned anew between two ticks is
  re-created while its new producer flows (`SourceMonitors.RisingProducerIsRecreated`, exactly:
  `SourceMonitors.AttemptMayFollowRiseIff`).
- A failed transport re-creation is documented to back off for a cycle; it leaves no producer,
  so the entry with the back-off stamp is dropped (`SourceMonitors.FailureIsNotRetried`).
- Reloading the sequence directory also takes left-over temporary files for sessions, and
  cleaning those up deletes another name (`SequenceStore.PhantomIff`,
  `SequenceStore.PhantomIsNotRemoved`).
- The counter of bandwidth reports is documented as monotonic per session; an id that ends and
  comes back counts from zero, so its reports are ignored until they pass the earlier numbers
  (`Bandwidth.ReturnedSessionStartsAnew`, `Bandwidth.FirstReportCountsIff`).
- A deprovisioned session keeps its port for good (`Ports.OnlyRollbackReturnsPorts`).
- The rollback of a failed repeat of a create also takes down what the first create set up
  (`Tunnels.RollbackRestoresIff`, `Ports.RollbackRestoresIff`).
- The rollback ignores a route it could not remove and releases the port all the same, so the
  host can reach the next session's tunnel (`Ports.NeverStraysIff`).
- Provisioning is documented to return the existing session; when that session's producer is
  gone after a failed re-creation it panics (`Tunnels.EdgeControl.Create`).
- Caddy is documented to keep an array entry at times although its id is gone; the probe by id
  then answers 404 and the removal reports success with the entry still dispatching, and the
  next `add_route` puts a second entry in front of it (`AdminClients.AdminClient.RemoveRoute`,
  `AdminClients.AdminClient.AddRoute`).
- The fallback is documented to stay at the tail; replaced in place it stays where the copy was,
  which is behind all hosts only if it was before (`CaddyRoutes.FallbackInPlaceIff`).

## Model

| member | source | states |
|---|---|---|
| RateLimiting.RateLimiter.Allow | crates/edge-sfu/src/neko_input_bridge.rs:267-285 | the pruning loop; on a monotone clock an arrival is admitted exactly when fewer than 60 admissions are younger than one second, and the deque is then exactly those |
| RateLimiting.WindowIsRecentHistory | crates/edge-sfu/src/neko_input_bridge.rs:267-285 | over every non-decreasing series of arrivals the deque is the admitted history of the last second, and each decision is the plain count of it |
| RateLimiting.SpacedIffEveryWindowLegal | crates/edge-sfu/src/neko_input_bridge.rs:235-238 | at most 60 stamps in every half-open second is the same as 61 consecutive stamps always spanning a second |
| RateLimiting.AdmittedWindowsLegal | crates/edge-sfu/src/neko_input_bridge.rs:171-183 | no half-open second of any run holds more than 60 admissions |
| RateLimiting.LimiterIsOptimal | crates/edge-sfu/src/neko_input_bridge.rs:267-285 | no selection that respects the limit is ever ahead: in every prefix the limiter has admitted at least as many, and its k-th admission is never later |
| InputBridge.EveryRunIsBounded | crates/edge-sfu/src/neko_input_bridge.rs:171-201 | for any number of concurrent calls with failing sends: at most one `control/request`, no event twice, only admitted calls send, at most 60 of the calls gated in any half-open second |
| InputBridge.ForwardEndsIff | crates/edge-sfu/src/neko_input_bridge.rs:171-201 | over every run an input is dropped if and only if 60 were admitted in the second before its turn, lost if and only if a send of its own failed, and otherwise every own step brings it on and the last puts its event on the wire |
| InputBridge.RequestFirstIff | crates/edge-sfu/src/neko_input_bridge.rs:171-201 | over every run `control/request` precedes all events if and only if no event is sent while another call has claimed the request and not yet sent it, or after its send failed |
| InputBridge.OneAtATimeIsInOrder | crates/edge-sfu/src/neko_input_bridge.rs:171-201 | a caller that forwards one input at a time, and whose request is acknowledged, keeps the order |
| InputBridge.OvertakingHappens | crates/edge-sfu/src/neko_input_bridge.rs:191-201 | two inputs at once on a fresh bridge put an event ahead of the request |
| InputBridge.EventCanOvertakeRequest | crates/edge-sfu/src/neko_input_bridge.rs:191-201 | from any state with a claim not yet sent another admitted call can go first |
| InputBridge.RequestIsSentIff | crates/edge-sfu/src/neko_input_bridge.rs:148-153 | once control is claimed, the request is on the wire if and only if no attempt at it is under way and none failed |
| InputBridge.LostRequestIsNeverRepeated | crates/edge-sfu/src/neko_input_bridge.rs:191-201 | after a failed send of the request no later run ever sends it |
| InputBridge.SendsAreBoundedIff | crates/edge-sfu/src/neko_input_bridge.rs:231-238 | over all runs whose events go out within a delay of their admission, every half-open second holds at most 60 sent events if and only if the delay is zero |
| Clipboard.TruncateClipboard | crates/edge-sfu/src/neko_input_bridge.rs:340-356 | for every valid text the result is a valid prefix of at most 8192 bytes, the longest one, and loses at most 3 bytes below the cap when it cuts |
| Clipboard.CutIsValidIffBoundary | crates/edge-sfu/src/neko_input_bridge.rs:340-356 | a cut of valid UTF-8 (section 3 of RFC 3629) is valid exactly where the one-byte boundary test says so |
| Clipboard.BoundaryWithinFour | crates/edge-sfu/src/neko_input_bridge.rs:340-356 | a boundary lies at most three bytes back from any position |
| RatholeConfig.RenderMeansMap | crates/edge-rathole-bridge/src/config_writer.rs:55-84 | the rendered blocks ascend by name and mean exactly the last-wins map of the services |
| RatholeConfig.RenderShows | crates/edge-rathole-bridge/src/config_writer.rs:55-84 | field by field: every name of the list has exactly one block, with the token and the address of its last service and a type key, "udp", exactly for UDP; other names have none |
| RatholeConfig.LastServiceIsShown | crates/edge-rathole-bridge/src/config_writer.rs:55-84 | in particular the last service of each name is what its block says |
| RatholeConfig.SameFileIffSameEntries | crates/edge-rathole-bridge/src/config_writer.rs:55-84 | two service lists render to the same file if and only if they hold the same entries, in whatever order |
| RatholeConfig.EnumerationDoesNotMatter | crates/edge-rathole-bridge/src/config_writer.rs:55-84 | every enumeration of a service map has the map's own entries |
| ServiceRegistry.Registry.Register | crates/edge-rathole-bridge/src/service_registry.rs:49-52 | the service is stored under its name; on success the file is the rendering of the map, after a fault the old file or none, as the fault dictates |
| ServiceRegistry.Registry.Deregister | crates/edge-rathole-bridge/src/service_registry.rs:54-57 | the service is gone from the map; the file as for register |
| ServiceRegistry.Registry.UpdateToken | crates/edge-rathole-bridge/src/service_registry.rs:69-81 | an unknown service changes nothing and says so; a known one changes its token only, then the file as for register, and after success the service's block has the new token |
| ServiceRegistry.Registry.PersistAndReload | crates/edge-rathole-bridge/src/service_registry.rs:87-113 | the file equals the rendering of the map for every iteration order, and shows every service of the map field by field and no other |
| ServiceRegistry.Registry.AtomicWrite | crates/edge-rathole-bridge/src/config_writer.rs:88-121 | new contents on success; the old file after a failed staging; the old file or none after a failed rename |
| ServiceRegistry.RunKeepsInv | crates/edge-rathole-bridge/src/service_registry.rs:49-113 | every step of any number of calls keeps the map equal to the replayed log, one lock holder, and every snapshot faithful to the moment each key was read |
| ServiceRegistry.ReturnedCallIsNeverOlder | crates/edge-rathole-bridge/src/service_registry.rs:49-113 | a call that has returned Ok made exactly the change it was asked for (the service, its removal, or the new token with the other fields kept), and the file shows for that key, field by field, a value the map had after that change |
| ServiceRegistry.CallEndsIff | crates/edge-rathole-bridge/src/service_registry.rs:49-113 | over every run a call ends in an error if and only if its own write failed or it was cancelled, answers "no such service" if and only if it was to change the token of one not registered at its turn, and otherwise returns Ok with its sixth step |
| ServiceRegistry.FileFollows | crates/edge-rathole-bridge/src/config_writer.rs:88-121 | the file changes only when it is removed and when a rename succeeds, to the rendering of what that call read |
| ServiceRegistry.FileIsMapAtRest | crates/edge-rathole-bridge/src/service_registry.rs:49-113 | with no call in flight and none failed the file is the rendering of the map, and shows every service of it field by field and no other |
| RouteIds.RouteIdsAgreeIff | crates/edge-caddy-bridge/src/route_builder.rs:212-214 | two hosts share an id if and only if they have one length and differ at most in dots against underscores |
| RouteIds.RouteIdIsInjective | crates/edge-caddy-bridge/src/route_builder.rs:212-214 | in particular hosts without an underscore share an id if and only if they are equal |
| RouteIds.RouteIdCollides | crates/edge-caddy-bridge/src/route_builder.rs:212-214 | an underscore in place of a dot gives the same id |
| RouteIds.RouteIdIsFallbackIff | crates/edge-caddy-bridge/src/admin_client.rs:607-609 | exactly which host spells out the fallback's id |
| RouteIds.DottedHostIsNotFallback | crates/edge-caddy-bridge/src/admin_client.rs:607-609 | a dotted host never does |
| RouteIds.FallbackIdIsTakenIff | crates/edge-caddy-bridge/src/admin_client.rs:607-609 | some session host is given the fallback's id if and only if the region has an underscore and no dot |
| CaddyRoutes.DispatchIsTable | crates/edge-caddy-bridge/src/admin_client.rs:593-601 | on an array in order, first-match dispatch is a map lookup with the wildcard routes as default |
| CaddyRoutes.WildcardMatchesIff | crates/edge-caddy-bridge/src/admin_client.rs:588-601 | the fallback's wildcard stands for exactly the hosts with one non-empty label in front of the suffix |
| CaddyRoutes.OwnsIdIff | crates/edge-caddy-bridge/src/route_builder.rs:212-214 | among the routes the edge builds, a host has its id to itself if and only if no other host there differs from it only in dots against underscores and the fallback, where there is one, has another id |
| CaddyRoutes.AddRefinesUpdate | crates/edge-caddy-bridge/src/admin_client.rs:118-246 | what `add_route` leaves dispatches like one map update, from any number of stale copies |
| CaddyRoutes.PlacedHasOneCopy | crates/edge-caddy-bridge/src/admin_client.rs:158-203 | exactly one copy of the id is left and every other route keeps its place |
| CaddyRoutes.PlacedIsWellFormed | crates/edge-caddy-bridge/src/admin_client.rs:158-203 | the array stays in order, with the fallback behind every exact host |
| CaddyRoutes.RemoveRefinesDelete | crates/edge-caddy-bridge/src/admin_client.rs:307-404 | what `remove_route` leaves dispatches like deleting the host from the map |
| CaddyRoutes.AppendedFallback | crates/edge-caddy-bridge/src/admin_client.rs:627-663 | appended behind any array in order the fallback keeps the order and answers only what no host and no wildcard before it handles |
| CaddyRoutes.FallbackInPlaceIff | crates/edge-caddy-bridge/src/admin_client.rs:588-624 | replaced in place the array is in order if and only if the other routes are and the copy stood in front of no host that the wildcard matches |
| CaddyRoutes.FallbackIsInstalled | crates/edge-caddy-bridge/src/admin_client.rs:602-699 | from an array that is in order up to stale copies, either way of installing the fallback leaves it in order, keeps every host's target, and with no other wildcard answers 410 for the rest under it |
| CaddyRoutes.HistoryRefinesMap | crates/edge-caddy-bridge/src/admin_client.rs:118-404 | for hosts that own their ids in the starting array and share none among themselves, over every history of completed calls the array behaves like a map whose default is what the wildcard routes answer, and these stay last |
| CaddyRoutes.HistoryFallsToGone | crates/edge-caddy-bridge/src/admin_client.rs:588-601 | for the same histories, with the fallback installed that default is 410: every host gets its last upstream and the rest under the wildcard gets 410 |
| AdminClients.Caddy.PutId | crates/edge-caddy-bridge/src/admin_client.rs:411-418 | the server's replace-by-id: one copy is replaced, none is 404, two are a duplicate error; a lost id is 404 whatever the array holds |
| AdminClients.Caddy.DeleteId | crates/edge-caddy-bridge/src/admin_client.rs:302-331 | the server's delete-by-id: drops one copy, or reports success and leaves the array alone, with the id still found or lost |
| AdminClients.Caddy.DeleteIndex | crates/edge-caddy-bridge/src/admin_client.rs:165-169 | the server's delete-by-index: shifts the array or leaves a null |
| AdminClients.Caddy.Store | crates/edge-caddy-bridge/src/admin_client.rs:206-223 | PATCH replaces an existing array, PUT also creates it, POST appends |
| AdminClients.AdminClient.DedupIdInArray | crates/edge-caddy-bridge/src/admin_client.rs:450-490 | the tail-to-head sweep by stale index removes only copies of the id, keeps the others in order, and removes all when every DELETE succeeds |
| AdminClients.AdminClient.PutWithDedupRetry | crates/edge-caddy-bridge/src/admin_client.rs:504-553 | success means one copy, ours, exactly where one of the old copies stood; 404 means every copy is gone; other routes are never touched |
| AdminClients.AdminClient.AddRoute | crates/edge-caddy-bridge/src/admin_client.rs:118-246 | success leaves one copy, where an old one stood or in front, and redirects exactly this host to the upstream; when the id was lost ours is in front of the old copies, which stay, the host is redirected and the id found again; no exit touches another route or leaves more copies than there were, or one; without a fault it succeeds |
| AdminClients.AdminClient.PrependOrCreate | crates/edge-caddy-bridge/src/admin_client.rs:140-240 | the array read back without its nulls gets our route in front, or is created with it |
| AdminClients.AdminClient.RemoveRoute | crates/edge-caddy-bridge/src/admin_client.rs:307-404 | removes only copies of the id and at most two of them; a successful removal of the only copy leaves none if and only if the id was not lost, and then redirects only this host to the wildcards; with the id lost the array is as it was |
| AdminClients.AdminClient.RemoveByScan | crates/edge-caddy-bridge/src/admin_client.rs:348-404 | the fallback scan sends at most one delete, by index, and on success the copies are one fewer or none |
| AdminClients.AdminClient.EnsureFallback | crates/edge-caddy-bridge/src/admin_client.rs:602-699 | success replaces one of the old copies in place or appends behind everything, and appends behind the old copies when the id is lost; otherwise from an array in order up to stale copies it leaves it in order, hosts keep their targets and 410 is the default |
| AdminClients.SurvivingCopy | crates/edge-caddy-bridge/src/admin_client.rs:450-490 | a copy that survives a partial sweep stands where one of the original copies stood |
| TlsPolicies.OnlyOursCovers | crates/edge-caddy-bridge/src/admin_client.rs:797-829 | after the rewrite ours is first, and another policy applies to a host under the wildcard (section 6.4.3 of RFC 6125) if and only if the old list had a policy without subjects |
| TlsPolicies.OverlapIff | crates/edge-caddy-bridge/src/admin_client.rs:902-926 | exactly which subjects are stripped: ours, and a dotless label with any number of dots behind it, even none, in front of the suffix |
| TlsPolicies.SurvivesIff | crates/edge-caddy-bridge/src/admin_client.rs:797-829 | a policy is in the rewritten list behind ours if and only if it was in the old one and no string among its subjects is our wildcard, or a dotless label with any number of dots, even none, in front of the suffix |
| TlsPolicies.ForeignPolicyIsKept | crates/edge-caddy-bridge/src/admin_client.rs:781-814 | so a policy whose subjects all end otherwise is kept |
| TlsPolicies.SurvivorsKeepOrder | crates/edge-caddy-bridge/src/admin_client.rs:802-809 | the list is rewritten slot by slot: each slot gives its policy once, in its place, or nothing |
| Ports.PortAllocator.Allocate | crates/edge-rathole-bridge/src/port_allocator.rs:23-32 | the least free port is taken; an error exactly when none is free |
| Ports.PortAllocator.Release | crates/edge-rathole-bridge/src/port_allocator.rs:34-39 | a port in range is free again, another is ignored |
| Ports.ServicePortsAreExclusive | crates/edge-control/src/routes/tunnels.rs:60-126 | under every interleaving and repeated session ids the ports of registered services are distinct, in range and not free, and every port is free or issued, never both |
| Ports.OnlyRollbackReturnsPorts | crates/edge-control/src/routes/tunnels.rs:203-255 | free ports number 1000 less allocations plus rollbacks since the last restart, whatever was deprovisioned |
| Ports.StrayIff | crates/edge-control/src/routes/tunnels.rs:117-126 | over every run a route names a port no longer issued to the create that set it if and only if that create was rolled back although its route could not be removed, or was lost in a restart; only then can it lead to another session |
| Ports.NeverStraysIff | crates/edge-control/src/routes/tunnels.rs:117-126 | no route ever does so in a run if and only if no rollback releases its port while its own route is still there and no restart finds a route |
| Ports.NeverStray | crates/edge-control/src/routes/tunnels.rs:117-126 | in particular, without a restart and with every removal in a rollback carried out, no route is ever stray and none leads to another session |
| Ports.EntriesFollow | crates/edge-control/src/routes/tunnels.rs:60-255 | exactly what each step makes of any session's service and any host's route: a create's own steps and the removals asked for set and drop them, a restart forgets the services, nothing else changes either |
| Ports.RouteReachesAnotherSession | crates/edge-control/src/routes/tunnels.rs:121-123 | it happens: the next create takes the released port and the old host leads to the new session |
| Ports.RollbackRestoresIff | crates/edge-control/src/routes/tunnels.rs:117-126 | over every run in which nobody else touches the session or the host, a rolled-back create restores both if and only if the session had no service before, and the host no route, or the very one a failed removal leaves |
| Ports.InterleavedRollbackTakesDown | crates/edge-control/src/routes/tunnels.rs:117-126 | without that, of two creates of one session begun on an empty edge, the rollback of one takes down what the other, successful, one set up |
| Tunnels.EdgeControl.Create | crates/edge-control/src/routes/tunnels.rs:60-170 | the whole state and answer after every exit of a create: no port, failed registration, failed route, failed SFU with its rollback, a live session without a producer, success |
| Tunnels.CreatedIffServed | crates/edge-control/src/routes/tunnels.rs:60-170 | after a create the session is live with a producer, recorded under the host, with its service and its route on the new port, if and only if the answer says so, or it had been set up under that host before and a failed repeat left a route to the new port |
| Tunnels.FailedRepeatIsServed | crates/edge-control/src/routes/tunnels.rs:98-112 | the second case happens: a repeat that fails at the route can leave the session on the new port |
| Tunnels.OtherAnswers | crates/edge-control/src/routes/tunnels.rs:60-170 | the handler dies if and only if the session is live without a producer and its route went through; it answers with an error if and only if a step failed |
| Tunnels.CreateLeaves | crates/edge-control/src/routes/tunnels.rs:60-170 | at every exit nothing of other sessions, hosts and ports changes, the port is free again and the service gone if and only if the SFU refused, and liveness and record change only with success |
| Tunnels.EdgeControl.Reprovision | crates/edge-sfu/src/router_manager.rs:1009-1086 | a failed re-creation leaves a live session without a producer |
| Tunnels.EdgeControl.Deprovision | crates/edge-control/src/routes/tunnels.rs:203-255 | the whole state after a deprovision, whether or not Caddy drops the route |
| Tunnels.DeprovisionLeaves | crates/edge-control/src/routes/tunnels.rs:203-255 | a deprovision gives back no port and touches no other session, and of the routes drops at most the recorded one |
| Tunnels.RollbackRestoresIff | crates/edge-control/src/routes/tunnels.rs:117-126 | one request at a time, the rollback restores the whole state if and only if neither the session nor the host was registered before |
| Tunnels.DeprovisionUndoesCreateIff | crates/edge-control/src/routes/tunnels.rs:203-255 | a deprovision undoes a create, all but the port, if and only if the create found nothing of that session or host |
| Tunnels.FailedRouteIsStrandedIff | crates/edge-control/src/routes/tunnels.rs:98-112 | after a create that failed at the route, from every state, a deprovision leaves a route of the host to the create's port behind if and only if the failure left one (its own, or one that an earlier rollback failed to remove) and the session was not recorded under that host or Caddy keeps it again; the port is not given back |
| SfuInput.RunKeepsInv | crates/edge-sfu/src/router_manager.rs:627-792 | every step of any interleaving keeps tables, slots, owners, transports and returned ids consistent |
| SfuInput.CheckIsGetOrSet | crates/edge-sfu/src/router_manager.rs:1245-1252 | an Ok at the early check is a get-or-set on the slot the viewer has at that moment |
| SfuInput.StoreIsGetOrSet | crates/edge-sfu/src/router_manager.rs:627-792 | an Ok at the store is one atomic get-or-set with the call's own producer as candidate: the first stored wins |
| SfuInput.OthersKeepInputs | crates/edge-sfu/src/router_manager.rs:364-447 | no other step changes any slot's input producer, and slot names are never reused |
| SfuInput.InputIsWriteOnce | crates/edge-sfu/src/router_manager.rs:627-792 | over every run a slot's input producer, once set, never changes |
| SfuInput.ReturnsAgree | crates/edge-sfu/src/router_manager.rs:627-792 | all calls that returned Ok for one slot returned one id, the slot's |
| SfuInput.RunIsLinearizable | crates/edge-sfu/src/router_manager.rs:627-792 | for every run there is one sequential history of get-or-sets, in return order, exactly one per call that returned Ok, that gives each its answer and each slot its producer |
| SfuInput.ProduceEndsIff | crates/edge-sfu/src/router_manager.rs:627-792 | when a call must return Ok: over every run it ends in an error if and only if its session was unknown, its viewer had no slot at the check or the store, an await that was needed failed (none is needed for a direct transport that exists), or it was cancelled; otherwise each own step brings it on and the fifth, or the check on a filled slot, returns the producer of the viewer's slot |
| SfuInput.ConsumeEndsIff | crates/edge-sfu/src/router_manager.rs:802-861 | the same for `consume`, whose consumer is then held by the viewer's slot as long as that lives |
| SfuInput.ViewerIsServed | crates/edge-sfu/src/router_manager.rs:678-791 | a viewer without an input producer gets its own, also where other viewers of the session had theirs before and the direct transport exists |
| SfuInput.ViewersFollow | crates/edge-sfu/src/router_manager.rs:353-447 | exactly who has a slot: joining a session of fewer than 30 gives a fresh and empty one, joining a full one changes nothing, leaving takes it, and nobody else's changes; sessions open and close by name |
| SfuInput.SessionShape | crates/edge-sfu/src/router_manager.rs:364-438 | producer and observer are set together, one direct transport per session, at most 30 viewers |
| SfuInput.NothingLeaksAtRest | crates/edge-sfu/src/router_manager.rs:802-861 | at rest the live producers, observers and consumers are exactly those held by slots of open sessions |
| SourceMonitors.SourceMonitor.Inspect | crates/edge-sfu/src/router_manager.rs:1110-1213 | one session's visit updates its entry as the step function says, attempts exactly when it is starved, and touches no other entry |
| SourceMonitors.SourceMonitor.Tick | crates/edge-sfu/src/router_manager.rs:1094-1215 | a tick drops the entries of closed sessions and visits every listed one once |
| SourceMonitors.TrackIsBest | crates/edge-sfu/src/router_manager.rs:1137-1155 | an entry is held exactly while someone has watched and a producer was there at every visit; its count is the largest sample since tracking began or the last successful re-creation, of whichever producer |
| SourceMonitors.AttemptIffStarved | crates/edge-sfu/src/router_manager.rs:1180-1191 | a re-creation is attempted exactly when there are viewers, the session is tracked, the sample is no larger than the largest since tracking began or the last re-creation, and the last news is at least 12 s old; idle visits are no news |
| SourceMonitors.AttemptMayFollowRiseIff | crates/edge-sfu/src/router_manager.rs:1088-1092 | the documented rule, no attempt within 12 s of an observed rise, can fail after a rise if and only if the session is tracked, an earlier sample that still counts was at least as large, and nothing else was new at that instant |
| SourceMonitors.SilentWhenNotRenewed | crates/edge-sfu/src/router_manager.rs:1088-1092 | for sessions never provisioned anew between two samples, an attempt comes at least 12 s after every observed rise |
| SourceMonitors.RisingProducerIsRecreated | crates/edge-sfu/src/router_manager.rs:1104-1191 | it does fail: a session provisioned anew between two ticks is re-created 15 s later although its count rose at the last two visits |
| SourceMonitors.AttemptsAreSeparated | crates/edge-sfu/src/router_manager.rs:1192-1202 | after a successful re-creation the next attempt needs a positive sample in between |
| SourceMonitors.FailureIsNotRetried | crates/edge-sfu/src/router_manager.rs:1024-1056 | after a failed re-creation there is no attempt at all until the session is provisioned anew, and then, unless that comes before the next visit, only after a flow |
| SourceMonitors.StarvationIsNoticed | crates/edge-sfu/src/router_manager.rs:1094-1215 | watched ticks at most 5 s apart attempt less than 17 s after the last rise |
| RevocationMirror.RevocationList.Turn | crates/edge-viewer-gate/src/revocation.rs:127-202 | one turn of the polling loop: set, stamp, tag, streak and next instant after a list, a 304 or a failure |
| RevocationMirror.RevocationList.IsFresh | crates/edge-viewer-gate/src/revocation.rs:234-242 | fresh when polling is off or the last success is within the limit |
| RevocationMirror.WaitsAreBackedOff | crates/edge-viewer-gate/src/revocation.rs:112-202 | over every run the wait after the n-th 304 since the last list is min(2^min(n, 4) times the interval, cap), failures in between not counted, and after a list or a failure the interval, with interval and cap written out |
| RevocationMirror.MirrorIsLastList | crates/edge-viewer-gate/src/revocation.rs:127-202 | over every run the mirror holds the last list and its tag, and the instant of the last answer that was not a failure |
| RevocationMirror.StaysFresh | crates/edge-viewer-gate/src/revocation.rs:118-201 | if an outage of f failures fits the limit, the mirror is fresh at every instant after the first success |
| RevocationMirror.ToleratesIffOutageFits | crates/edge-viewer-gate/src/revocation.rs:118-201 | exactly: some run with at most f failures in a row goes stale if and only if the longest wait, a timeout and f intervals with timeouts exceed the limit |
| RevocationMirror.DefaultsSurviveOneFailure | crates/edge-viewer-gate/src/revocation.rs:101-121 | with 5 s and 30 s no run with single failures goes stale and some run with two in a row does |
| RevocationMirror.FreshMirrorIsRecent | crates/edge-viewer-gate/src/revocation.rs:127-186 | for a server whose tags identify its sets (sections 8.8.3 and 13.1.2 of RFC 9110), a mirror found fresh is the server's set of at most the staleness limit and one request ago, through any mix of 200, 304 (section 15.4.5) and failures |
| ViewerAuth.ExtractCookie | crates/edge-viewer-gate/src/verify.rs:121-131 | the scan returns the first part with the name |
| ViewerAuth.ScanFindsFirst | crates/edge-viewer-gate/src/verify.rs:121-131 | scanning a rendered Cookie header gives back the first cookie of the name |
| ViewerAuth.AcceptedIff | crates/edge-viewer-gate/src/verify.rs:61-115 | for every rendered Cookie header, a request is accepted with these claims if and only if the mirror is fresh enough where that is demanded, the first session cookie is a token vouched for with them by the held key it names under EdDSA, the audience is right, the host (the forwarded one first, up to the first colon, lower-cased) is theirs, and their id is not in the mirror |
| ViewerAuth.RefusedIff | crates/edge-viewer-gate/src/verify.rs:61-115 | for every request, which error it gets: that of the first of the twelve checks, in their order, that it does not pass |
| ViewerAuth.StrictAcceptanceIsRecent | crates/edge-viewer-gate/src/verify.rs:61-115 | a token accepted in strict mode after a check at time a was absent from the server's set at some time no earlier than a less the staleness limit and the request timeout |
| TtlCache.Oracle.CacheGet | crates/edge-shared/src/revocation.rs:59-67 | a hit only when the lock is readable and the entry is younger than the time to live |
| TtlCache.Oracle.CachePut | crates/edge-shared/src/revocation.rs:69-83 | later lookups see this entry, and every other key exactly as before, pruned or not |
| TtlCache.PruningIsInvisible | crates/edge-shared/src/revocation.rs:71-75 | pruning never changes an answer |
| TtlCache.LookupFindsLast | crates/edge-shared/src/revocation.rs:59-83 | over every interleaving a lookup finds exactly the last insertion for its key, whatever its value and however often the cache was pruned, and only while it lives |
| TtlCache.CallIsAnswered | crates/edge-shared/src/revocation.rs:88-127 | over every interleaving a call that finds a live entry under a readable lock is told its value; any other is told an error if and only if its fetch failed, and otherwise what the server said at the instant the fetch was answered for |
| TtlCache.AnswersAreRecent | crates/edge-shared/src/revocation.rs:120-127 | over every interleaving each Ok answer is the server's at a time less than the time to live and one fetch before the call began |
| TtlCache.RevocationTakesEffect | crates/edge-shared/src/revocation.rs:120-127 | from a time to live and a fetch after a permanent revocation every call answers true or an error |
| TtlCache.TtlAloneIsNotEnough | crates/edge-shared/src/revocation.rs:4-7 | at every earlier instant some run lets a call pass, for every server, revocation instant, time to live and delay |
| TtlCache.PassesIffBeforeEffect | crates/edge-shared/src/revocation.rs:59-83 | exactly: a call can be told "not revoked" if and only if it begins before that instant |
| Bandwidth.BandwidthReporter.ReportOne | crates/edge-bandwidth/src/reporter.rs:109-143 | one visit reports the growth since the last report under the next number, or holds it back below 0.1 MB |
| Bandwidth.BandwidthReporter.Tick | crates/edge-bandwidth/src/reporter.rs:84-105 | every active session is visited once and every other entry is forgotten |
| Bandwidth.Send | crates/edge-callback-client/src/client.rs:91-107 | at most three attempts, stopping at the first acknowledgement, waits of 200 and 600 ms; never an error, from none to three arrivals |
| Bandwidth.Telescopes | crates/edge-bandwidth/src/reporter.rs:121-136 | for every series of samples the deltas add up to what is stored and their numbers are consecutive |
| Bandwidth.NothingIsLeftBehind | crates/edge-bandwidth/src/reporter.rs:121-125 | no sample is ahead of the reported total by more than 104857 bytes |
| Bandwidth.ReportsAreGrowth | crates/edge-bandwidth/src/reporter.rs:120-136 | for every series, exactly what is reported: a report at each sample at least 104858 bytes above the sample of the report before it, with that difference and the next number; that sample is then stored |
| Bandwidth.TickSendsDue | crates/edge-bandwidth/src/reporter.rs:84-105 | a tick reports exactly the listed sessions that have grown that much, in order, each with its growth and its next number |
| Bandwidth.NeverOverCounted | crates/edge-sfu/src/router_manager.rs:456-481 | over every run with viewers, sessions, lost and repeated callbacks and restarts, what the receiver counts was carried, and accepted numbers strictly increase |
| Bandwidth.InOrderNothingIsLost | crates/edge-bandwidth/src/reporter.rs:109-143 | over every run without a restart or the end of the session in which reports arrive in order, each one that arrives is taken, and when all have the receiver has counted exactly what is stored |
| Bandwidth.ArrivalCountsIff | crates/edge-bandwidth/src/reporter.rs:5-8 | over every run a report that arrives counts if and only if its number is above every number accepted before |
| Bandwidth.ReturnedSessionStartsAnew | crates/edge-bandwidth/src/reporter.rs:93-105 | an id that ends and comes back reports from number zero and zero bytes again |
| Bandwidth.FirstReportCountsIff | crates/edge-bandwidth/src/reporter.rs:93-105 | so that report counts if and only if the receiver has never accepted one of that id |
| SequenceStore.PrintedIsParsed | crates/edge-bandwidth/src/persistence.rs:54-65 | print, trim and parse give back every 64-bit number, and refuse larger ones |
| SequenceStore.PlusAndZerosAreRead | crates/edge-bandwidth/src/persistence.rs:60-76 | numbers with a plus sign or zeros in front read the same |
| SequenceStore.PlainIdIsItsName | crates/edge-bandwidth/src/persistence.rs:32-44 | an id of letters, digits, dashes and underscores is its own file name |
| SequenceStore.NameStaysInside | crates/edge-bandwidth/src/persistence.rs:32-44 | no id's file name holds a path separator or a dot |
| SequenceStore.NamesAreDistinctIffAllowed | crates/edge-bandwidth/src/persistence.rs:32-44 | an id has a file apart from those of all ids of allowed characters exactly when it is one of them; ids of other characters are not told apart, "a.b" shares the file of "ab" |
| SequenceStore.Store.Save | crates/edge-bandwidth/src/persistence.rs:114-141 | the directory after a save, cut off at any point |
| SequenceStore.Store.Remove | crates/edge-bandwidth/src/persistence.rs:79-86 | the session's file is gone and nothing else |
| SequenceStore.Store.LoadAll | crates/edge-bandwidth/src/persistence.rs:90-111 | the map of all readable files, in whatever order they are listed |
| SequenceStore.CutOffSave | crates/edge-bandwidth/src/persistence.rs:114-141 | at every cut-off point the session reads back as before, as nothing or as the new number, and the others as before |
| SequenceStore.PhantomAfterSaveIff | crates/edge-bandwidth/src/persistence.rs:114-141 | after one save, cut off anywhere, the scan takes the temporary file for a session if and only if the cut came after its first byte and before the rename, or it was one before and untouched; a partly written one gives a truncated number |
| SequenceStore.PhantomIff | crates/edge-bandwidth/src/persistence.rs:90-111 | over every history, if and only if the last save of that name that opened its temporary file was cut off there |
| SequenceStore.ScanIsSessionsAndPhantoms | crates/edge-bandwidth/src/persistence.rs:90-111 | after any history the scan holds every session with the number it reads back as, every phantom, and nothing else |
| SequenceStore.ScansOnlySessionsIff | crates/edge-bandwidth/src/persistence.rs:88-111 | it holds sessions only if and only if no session has a phantom |
| SequenceStore.PhantomIsNotRemoved | crates/edge-bandwidth/src/persistence.rs:79-86 | removing a phantom session keeps its temporary file and deletes another name |
| SequenceStore.NeverGarbled | crates/edge-bandwidth/src/persistence.rs:54-76 | after any history of cut-off saves and removals a session reads back as nothing or as a number saved for it |

## Left out

- mediasoup, ICE, DTLS and SCTP negotiation, codec tables, WebSocket and HTTP transport, JSON shapes, environment parsing, tracing, process reload: foreign calls and configuration.
- JWT and EdDSA cryptography, JWKS parsing and refresh: `ViewerAuth.Library` supplies what they answer.
- The packet-loss log of the source monitor, the summing of RTP statistics into one sample, and the retries inside `reprovision_plain_producer`: they decide only one sample or one outcome, which are parameters.
- The environment is taken at its comments' word: a clock that never runs backwards, one lock holder at a time, Caddy's replies as documented, requests that end within their timeout plus a free delay `lag`.
- Concurrent `AdminClient` calls: GET and PATCH of the whole array are not atomic in the source, so the routing results hold for one client call at a time.
- ServiceRegistry.RunKeepsInv: a file operation whose call is cancelled at its await is taken to have happened or not by then; in the source it may still run after the lock is released, and a late truncating open can empty the next caller's staged file.
- `ensure_edge_admin_route`, the in-place path of `ensure_wildcard_tls_policy` and the sweep of the TLS policies array: the same calls on other arrays.
- AdminClients.AdminClient.RemoveRoute: from two or more copies success may leave some, as the code deletes at most two; from three it always does. When a lost id is found again other than by a new entry is not modelled.
- The nested routes, header lists and bodies of `build_route`: only id, host matcher, upstream and `terminal` matter to dispatch.
- SfuInput.RunKeepsInv: viewer ids may be reused in the model, so a producer can end in a later slot of the same viewer than the one it was opened on; in the source viewer ids are minted per connection.
- SfuInput.SessionShape: worker choice, transports' connect steps, resume and layer preferences are not modelled; they change no field of the invariant.
- Forwarding of media while a closed session state still has a holder: the state lives until its last call ends, as reference counting does.
- RateLimiting.RateLimiter.Allow: instants are integers; the saturating subtraction of instants is kept.
- Clipboard.TruncateClipboard: one byte string stands for a Rust `str`, whose validity is the precondition.
- Floating point: deltas are whole bytes and "less than 0.1 MB" is "fewer than 104858 bytes"; the source sends the same delta as megabytes.
- Wrap-around of 64-bit counters and sequence numbers is out of reach in practice and is not modelled.
- Gap-free numbers across a restart are not claimed: the first tick forgets sessions that are not active again yet.
- Tunnels.EdgeControl.Create: one request at a time; interleaved requests are the subject of `Ports`. The disk mirror of the subdomain map and the rathole file are not part of its state, and a release build's process ends with a panic, which is `Ports.Restart`.
- Ports.RollbackRestoresIff: interleavings inside Caddy's own array are left out there, a route is set or removed in one step; SFU sessions and recorded hosts are in `Tunnels`.
- ViewerAuth.ScanFindsFirst: for cookies whose names and values hold no separator and no padding; white space is ASCII, as readable header values are.
- ViewerAuth.AcceptedIff: lower-casing is the library's function; a request with several Cookie headers is decided by the first one.
- SequenceStore.CutOffSave: reordering of directory entries by a power loss is not modelled, only the program's own steps.
- SequenceStore.Store.Save: an id without any allowed character fails without touching the directory, though the source would leave a temporary file beside it.
- TtlCache.Oracle.CachePut: subtracting the time to live from an instant younger than it is taken to work, where the source could panic just after boot.
- Liveness of HTTP retries, ordering of callbacks and delivery of every event: the code does not promise them.

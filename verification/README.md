# Verified models of the realtime-state protocols

The trading backend keeps derived state in Redis and in process memory in step with PostgreSQL under retries,
lost leases and reordering. This project models those protocols in Dafny and proves what they guarantee over
whole runs. `dafny verify dfyconfig.toml` checks everything.

How the source appears here:

- Each Lua script, MULTI block or stretch of Python between real suspension points is one atomic step. TTL and
  lease expiry is a step that may happen at any time. SSCAN is a list of pages given to the call.
- Objects that change state are classes whose methods are proved to perform the transitions of functions on
  values; the whole-run theorems are about those functions.
- Several processes at once are state machines over interleaved steps.
- Text is a sequence of UTF-8 octets; stripping and upper-casing are the ASCII ones.

| files | what they model |
|---|---|
| StreamOrder, Delivery, DeliverySystem, RoutingTables, ConnectionManagement | snapshot and incremental delivery to WebSocket clients |
| GatewayConsumer, RealtimeConsumer, GatewayLeasing, Leases, StreamRouting | consumption of the realtime stream by leased gateways, and its order |
| DirtyQueue, CallerVersions, RiskDirty, DirtyScan, DirtyRelation, FactEvents | versioned dirty queues, their scans, the two-way dirty relation |
| PnlIndex, PnlCycle, PnlStore | fenced cycle writes and position indexes of the realtime PnL store |
| ValuationStore, CashQueue, CashValuation | single-writer fencing of the cash valuation |
| ActiveOrders, PreSubscription, PercentCodec | active order index, subscription quota, member codecs |
| DecimalText, Projection | decimal versions and the projection of outbox events |
| Outbox, KeysetPaging, CursorCodec, JsonText, DailyFacts | outbox retries, paging, cursors, daily facts |
| Options, SetTables, TextOrder | absent values, tables of sets and the order of texts, used throughout |

## Where the code does less than it says

Each of these is a theorem below, with the exact condition under which the code does meet its promise.

- A message routed again while a snapshot loads is delivered twice, and a message first routed after a later one
  is dropped (`RedeliverySafeIff`, `LiveLosesNothingIff`).
- Subscribing a context that has been closed meanwhile leaves routes to it behind (`AddLeaksIff`).
- `RiskStore.list_dirty` says a bad account cannot starve others; members of a page beyond the batch are never
  returned (`ReachedIff`).
- The comment in `trade_created_pnl_service.py` says a failed Redis step is retried; a failed risk mark is not
  (`RiskMarkedIff`).
- A dirty contract marked with an unstripped account id stays in that account's set until it is completed
  with the stripped id marked too (`TwoWayIff`, `EntryGoesIff`).
- `rebuild_active_indexes` tries three times, but an attempt aborted because the version rose is never followed by a
  successful one; only dropped connections are made good (`SucceedsIff`). After a lost reply it can return false with
  everything replaced (`CalledIsOneRebuild`), and it does not notice index writers between reading and replacing
  (`RebuildRaceLeaks`).
- Reconciling active contracts looks orders up by normalised codes and so drops contracts of orders written
  otherwise; removal does the reverse (`SurvivesIff`, `RemoveExactIff`).
- `remove_active_order` reads an order before its script; an order added in between leaves its contract behind
  (`LateAddIff`).
- Positions and accounts are marked with versions of the caller's choice; one used twice for a key can lose a mark
  (`FreshIff`).
- The cash dirty list is the first batch in sorted order, so unfinished accounts hold back later ones (`ListedIff`).
- A cash valuation worker whose fence activation raises renews its lease all the same and values nothing while it
  lasts (`StalledServesNothing`).
- One failure of the realtime consumer lets later messages overtake the failed one, which a live connection then
  drops (`FailureReorders`, `CalmRunRoutesInOrder`).
- An outbox publisher that overruns its claim can return a sent event to the queue (`LateMarkRevertsIff`).

## Model

| member | source | states |
|---|---|---|
| DeliverySystem.DeliveryIsExact | app/realtime/websocket_api.py:312-381 | After any interleaving of publishing, routing, subscribing, loading, sending and closing, the client of an open account has a snapshot at some cursor followed by exactly the routed events of that account above it, once each and in order. |
| DeliverySystem.StepKeepsInvariant | app/realtime/connection_manager.py:90-254 | Each step of the handler, the consumer, the publisher and the sender keeps the delivery invariant of every account. |
| DeliverySystem.RunKeepsInvariant | app/realtime/websocket_api.py:312-381 | The invariant holds over whole runs, redeliveries outside the snapshot window included. |
| DeliverySystem.NothingAfterClose | app/realtime/connection_manager.py:211-254 | Once closed, a connection is sent nothing more whatever steps follow. |
| DeliverySystem.RunClosesIff | app/realtime/connection_manager.py:129-254 | A connection is open at the end of a run exactly if nobody closed it and every event, snapshot and answer found room: a queue or buffer is overrun at its limit and not before. |
| DeliverySystem.NothingIsLost | app/realtime/websocket_api.py:312-381 | In a run in which all of that found room, an account that is not loading has been sent every event of the stream past its snapshot once the consumer has caught up. |
| DeliverySystem.DropSilences | app/realtime/connection_manager.py:108-127 | Unsubscribing leaves a connection not subscribed to the account and about to load nothing of it. |
| DeliverySystem.UnsubscribedIsSilent | app/realtime/connection_manager.py:108-127 | Once unsubscribed a client is sent nothing of the account until it subscribes to it again. |
| DeliverySystem.FinishView | app/realtime/connection_manager.py:186-209 | If the connection survives the flush, the client has the snapshot at its cursor and then the buffered events above it in version order. |
| DeliverySystem.WindowView | app/realtime/connection_manager.py:198-209 | Whatever the window buffered, in whatever order, a client whose connection survives the flush sees the snapshot and then the buffered events above its cursor, sorted by version. |
| DeliverySystem.WindowDuplicatesIff | app/realtime/connection_manager.py:198-209 | The events flushed after a snapshot are strictly increasing exactly when no version above the cursor was buffered twice: the flush compares with the cursor only. |
| DeliverySystem.UnsafeRedeliveryDuplicates | app/realtime/connection_manager.py:149-209 | After any redelivery the other theorems exclude, the connection is closed, by then or in the flush, or its client gets events of the account out of strictly increasing order. |
| DeliverySystem.RedeliverySafeIff | app/realtime/connection_manager.py:166-176 | While a snapshot loads, a message routed again without overflowing the buffer is safe in the sense the theorems assume exactly if no version above the cursor is buffered twice. |
| DeliverySystem.EventIsSentTwice | app/realtime/connection_manager.py:166-209 | A reachable instance in which the client gets one event twice. |
| DeliverySystem.LoadingOneIsReachable | app/realtime/connection_manager.py:90-106 | The state of that instance is reached by a run from a fresh connection. |
| StreamOrder.ReplayExact | app/realtime/connection_manager.py:149-209 | If the events above the cursor are routed in strictly increasing order, buffered first and live after, the connection delivers exactly those. |
| StreamOrder.ReplayIncreasingIff | app/realtime/connection_manager.py:198-209 | What one connection delivers after its snapshot is strictly increasing exactly when no version above the cursor was buffered twice. |
| StreamOrder.LiveEventDeliveredIff | app/realtime/connection_manager.py:177-183 | For any routing order a live event is delivered exactly when it is newer than the starting version and than every event routed before it. |
| StreamOrder.LiveLosesNothingIff | app/realtime/connection_manager.py:177-183 | A live connection loses nothing above its version exactly when those events are routed in strictly increasing order. |
| StreamOrder.LateFirstDeliveryIsDropped | app/realtime/connection_manager.py:177-183 | A message first routed after a later one never reaches a live connection, although it is no duplicate. |
| StreamOrder.SortSorts | app/realtime/connection_manager.py:202-205 | The buffer is flushed in version order and as a permutation of what was buffered. |
| StreamOrder.AboveOfSort | app/realtime/connection_manager.py:202-207 | Sorting the buffer and dropping what the cursor covers commute. |
| Delivery.FlushEventsQueues | app/realtime/connection_manager.py:202-209 | Flushing one account queues exactly its sorted buffered events above the cursor and remembers the last of them. |
| Delivery.FlushAccountsQueues | app/realtime/connection_manager.py:198-209 | Flushing all accounts queues what each is owed, account by account, and nothing else. |
| Delivery.FlushAccountsFor | app/realtime/connection_manager.py:198-209 | The flush takes exactly the given accounts out of the loading state and touches no other account. |
| Delivery.SeenFlushFrames | app/realtime/connection_manager.py:198-209 | The client of one account sees its own owed events and none of another account. |
| Delivery.FinishSnapshotWellFormed | app/realtime/connection_manager.py:186-209 | Finishing keeps queues and buffers within their limits, buffers for exactly the loading accounts, and loading accounts subscribed. |
| Delivery.DeliverWellFormed | app/realtime/connection_manager.py:149-184 | So does one broadcast to a connection, whether it buffers, queues, drops or closes. |
| Delivery.CloseWellFormed | app/realtime/connection_manager.py:211-254 | A closed connection is subscribed to nothing, loads nothing and has nothing queued. |
| Delivery.EnqueueCases | app/realtime/connection_manager.py:129-154 | Any frame is queued behind the others while there is room; a full queue closes the connection, and a closed one takes nothing. |
| Delivery.LiveEventIsQueued | app/realtime/connection_manager.py:177-183 | A routed event of a live account, newer than the last one and with room in the queue, is queued, remembered and counted, and the connection stays open. |
| Delivery.LoadingEventIsBuffered | app/realtime/connection_manager.py:166-176 | One of a loading account with room in its buffer is kept for the flush. |
| Delivery.OldEventIsDropped | app/realtime/connection_manager.py:162-181 | A repetition and an event of another account change nothing. |
| Delivery.DeliverClosesIff | app/realtime/connection_manager.py:166-184 | An event closes the connection exactly if the buffer or the queue it is meant for is full. |
| Delivery.FinishClosesIff | app/realtime/connection_manager.py:187-209 | A snapshot and its flush close the connection exactly if the snapshot and all events owed past the cursor do not fit together. |
| Delivery.FlushEventCases | app/realtime/connection_manager.py:201-209 | Each buffered event is passed over if the snapshot covers it, and remembered only if it was queued. |
| RoutingTables.AddKeepsInverse | app/realtime/connection_manager.py:99-106 | Subscribing keeps account routes the inverse of the subscriptions of registered connections. |
| RoutingTables.RemoveKeepsInverse | app/realtime/connection_manager.py:108-122 | So does unsubscribing, and no empty route is left. |
| RoutingTables.RegisterKeepsInverse | app/realtime/connection_manager.py:55-59 | A connection joins its user's table without disturbing the others. |
| RoutingTables.UnregisterKeepsInverse | app/realtime/connection_manager.py:228-234 | A connection that leaves is in no route any more. |
| RoutingTables.AddLeaksIff | app/realtime/connection_manager.py:99-106 | Routing leaks exactly when the connection is not registered and some account is routed. |
| ConnectionManagement.ConnectionManager.Register | app/realtime/connection_manager.py:52-66 | A connection with a new id joins the tables, whatever else has leaked; over its user's limit it is refused and nothing changes. |
| ConnectionManagement.ConnectionManager.Subscribe | app/realtime/connection_manager.py:90-106 | Performs the subscription transition; on a closed context the routes it adds leak, otherwise the tables stay exact. |
| ConnectionManagement.ConnectionManager.Unsubscribe | app/realtime/connection_manager.py:108-122 | Performs the transition and keeps both tables exact. |
| ConnectionManagement.ConnectionManager.Close | app/realtime/connection_manager.py:211-254 | Leaves every index, drops everything queued; a second call changes nothing. |
| ConnectionManagement.ConnectionManager.Enqueue | app/realtime/connection_manager.py:124-147 | Queues if there is room; a full queue closes the connection. |
| ConnectionManagement.ConnectionManager.BroadcastToAccount | app/realtime/connection_manager.py:149-184 | Every registered connection makes exactly its own delivery transition, and the result counts those that queued the event. |
| ConnectionManagement.ConnectionManager.FinishSnapshot | app/realtime/connection_manager.py:186-209 | Performs the finishing transition, snapshot first. |
| ConnectionManagement.ConnectionManager.Shutdown | app/realtime/connection_manager.py:256-269 | Every connection is closed and all tables are empty. |
| GatewayConsumer.NothingSwallowed | app/realtime/event_consumer.py:33-101 | However the lease moves between suspension points and whoever crashes or stops, a delivered message is pending or was acknowledged exactly once by the lease holder of that moment after that gateway had routed it, buried it or found its body gone; what a gateway buries it has itself failed to handle, for the tenth time at least since the count was last cleared. |
| GatewayConsumer.StepKeepsInvariant | app/realtime/event_consumer.py:62-101 | Each suspension point of each gateway keeps the invariant behind it, also when the call raises before or after its effect; the stored failure counts are the failures since they were last cleared. |
| GatewayConsumer.FailingDeliveryEffect | app/realtime/event_consumer.py:78-101 | A failing delivery by the owner counts once; the tenth is buried, acknowledged and its count cleared, an earlier one stays pending. |
| GatewayConsumer.RoutedDelivery | app/realtime/event_consumer.py:72-77 | An undisturbed delivery by the owner routes once, clears the failure count and acknowledges. |
| GatewayConsumer.BodilessDelivery | app/realtime/event_consumer.py:69-71 | A message whose body is gone is acknowledged without being routed. |
| GatewayConsumer.CrashRecovers | app/realtime/event_consumer.py:103-123 | Whoever holds the lease after a crash starts, finds the message pending, routes and acknowledges it. |
| GatewayConsumer.NewMessageIsPending | app/infrastructure/order_stream_consumer.py:78-96 | A message not delivered before is read and is pending from then on. |
| GatewayConsumer.CrashDropsBatch | app/realtime/event_consumer.py:103-131 | A gateway may crash anywhere, with its batch lost to it. |
| GatewayConsumer.ExpiryForgets | app/realtime/event_consumer.py:78-84 | A failure count that expires leaves every other one. |
| GatewayConsumer.StaleGatewayStops | app/realtime/event_consumer.py:33-60 | Wherever it checks or acknowledges, a gateway without the lease stops and has no other effect, if nothing raises. |
| GatewayConsumer.ClearedFlagEnds | app/realtime/event_consumer.py:103-131 | Once the running flag is cleared, by a lost lease or on request, the gateway turns to no other message until it is started again, also if its callback raises. |
| RealtimeConsumer.RealtimeEventConsumer.Handle | app/realtime/event_consumer.py:62-101 | Whatever happens to the lease, to its calls and to its callback at its suspension points, handling a message is a run of the gateway automaton from its entry to the next message or the stop of the consumer. |
| RealtimeConsumer.PlayIsRun | app/realtime/event_consumer.py:33-101 | Such a run is a run of the whole system, so what is proved of every run holds of it. |
| RealtimeConsumer.RealtimeEventConsumer.TryRoute | app/realtime/event_consumer.py:72-77 | The try block: check, route, clear, acknowledge, with the point at which it fails. |
| RealtimeConsumer.RealtimeEventConsumer.CountFailure | app/realtime/event_consumer.py:78-101 | The handler: check, count, and at the tenth failure bury, clear and acknowledge. |
| RealtimeConsumer.RealtimeEventConsumer.EnsureOwner | app/realtime/event_consumer.py:33-44 | Owner or not, or raised: a lost lease clears the flag before the callback, so an exception of the callback finds it cleared and one of the check leaves it. |
| RealtimeConsumer.RealtimeEventConsumer.AcknowledgeMessage | app/realtime/event_consumer.py:46-60 | The message leaves the pending list for the owner only; a lost lease clears the flag before the callback. |
| StreamRouting.ConsumedDeliveryIsExact | app/realtime/event_consumer.py:62-128 | The consumer and a connection together: over any calm consumption by the gateway of the client, an account that is not loading has been sent a snapshot and then exactly the events routed past it, each once and in stream order, and what was routed is the beginning of the stream without a gap. |
| StreamRouting.RunIsDelivery | app/realtime/event_consumer.py:72-76 | What a connection sees of a calm consumption is a run of its own system: each routing is the next entry of the stream or a repetition of an earlier one. |
| StreamRouting.CalmRunRoutesInOrder | app/realtime/event_consumer.py:103-123 | If messages are taken only into empty hands, new ones in stream order, and none is dropped before it was routed, messages are first routed in stream order, none left out. |
| StreamRouting.SmoothIsCalm | app/realtime/event_consumer.py:103-123 | That is so with one holder of the lease and no failure, crash or stop. |
| StreamRouting.SmoothCases | app/realtime/event_consumer.py:103-123 | Smooth are calls that end normally, claims, and reads in order and whole. |
| StreamRouting.ClientActsFreely | app/realtime/websocket_api.py:312-381 | The steps of the client are as free as they are by themselves. |
| StreamRouting.InitialOrder | app/realtime/event_consumer.py:103-105 | Gateways not started yet, with nothing delivered, are in order. |
| StreamRouting.RegisteredAnywhere | app/realtime/event_consumer.py:62-128 | A client may register at its gateway at any point of a calm consumption. |
| StreamRouting.FailureReorders | app/realtime/event_consumer.py:78-91 | One failure is enough to lose the order: the holder counts it and routes the next message of its batch first. |
| GatewayLeasing.GatewayLease.Acquire | app/realtime/gateway_lease.py:50-58 | The lease is taken only when free. |
| GatewayLeasing.GatewayLease.Release | app/realtime/gateway_lease.py:71-79 | Only the holder releases it. |
| Leases.HeldUntilGivenUp | app/realtime/gateway_lease.py:7-19 | Between an acquisition and the next expiry or release by its owner the owner holds the lease and nobody acquires it. |
| Leases.Cases | app/realtime/gateway_lease.py:7-19 | Only a free lease is taken, only its holder gives it up, and both then succeed. |
| Leases.FreeAgain | app/realtime/gateway_lease.py:7-19 | Given up by its holder, or expired, the lease is free and the next to ask gets it. |
| GatewayLeasing.GatewayLease.AcknowledgeIfOwned | app/realtime/gateway_lease.py:89-110 | Removes exactly the given pending messages for the holder, nothing for anyone else, counts those removed, and for one message is the acknowledgement step of the gateway system. |
| DirtyQueue.SafeIff | app/infrastructure/realtime_pnl_store.py:67-76 | No run of a versioned dirty queue loses a mark exactly when versions come from a shared counter or are never deleted. |
| DirtyQueue.NoLostMark | app/infrastructure/realtime_pnl_store.py:374-395 | In a safe queue a completion that succeeds with the version read means no mark of that key came since it was read. |
| DirtyQueue.DeletedCounterLosesMark | app/infrastructure/realtime_pnl_store.py:67-68 | A per-key counter deleted with its key loses a mark: the run the source's comment warns of. |
| DirtyQueue.DirtyIffPending | app/infrastructure/realtime_pnl_store.py:117-147 | After any run a key is dirty exactly when some mark of it was not cleared since. |
| DirtyQueue.RedeliveryIsIdempotent | app/infrastructure/realtime_pnl_store.py:126-147 | An event redelivered before its marker expires changes nothing, whatever happened in between. |
| DirtyQueue.RunInvariant | app/infrastructure/realtime_pnl_store.py:84-101 | Contracts in the dirty set have versions, and where clearing deletes versions only they do. |
| DirtyQueue.RememberedIff | app/infrastructure/risk_store.py:20-26 | An event is remembered from the step that names it until its marker expires. |
| DirtyQueue.CounterAfter | app/infrastructure/realtime_pnl_store.py:250-263 | A shared counter rises by one with each bump and each mark, and at no other step. |
| RiskDirty.RiskStore.MarkDirty | app/infrastructure/risk_store.py:14-18 | Marks the account with its next version, as the queue does. |
| RiskDirty.RiskStore.MarkDirtyOnce | app/infrastructure/risk_store.py:20-26 | Marks once per event and reports a repeated event. |
| RiskDirty.RiskStore.MarkManyDirty | app/infrastructure/risk_store.py:84-89 | Each distinct account is marked once, in order of first appearance. |
| RiskDirty.MarkAllMarks | app/infrastructure/risk_store.py:84-89 | Marking many raises each version by one and touches no other account. |
| RiskDirty.RiskStore.ListDirty | app/infrastructure/risk_store.py:91-115 | Hands out the first distinct members of one page that have a version, and moves the cursor on. |
| RiskDirty.ReachedIff | app/infrastructure/risk_store.py:91-115 | Over a stable set an account is handed out at all exactly when it is among the first of a batch of some page, and then within one round. |
| RiskDirty.HeadIff | app/infrastructure/risk_store.py:91-115 | A page hands out exactly the members that fewer different ones than the batch come before. |
| RiskDirty.SecondStarves | app/infrastructure/risk_store.py:91-105 | One page of two accounts and a batch of one: the second is never handed out, contrary to the method's comment. |
| RiskDirty.RiskStore.CompleteDirty | app/infrastructure/risk_store.py:28-34 | Clears the account only at the expected version and keeps the version. |
| RiskDirty.RiskStore.AcquireLease | app/infrastructure/risk_store.py:129-134 | The lease is taken only when free. |
| RiskDirty.RiskStore.ReleaseLease | app/infrastructure/risk_store.py:43-48 | Only the holder releases it. |
| DirtyScan.FairScan | app/infrastructure/realtime_pnl_store.py:1199-1294 | Whatever else is marked, completed or left over, among as many calls as buffered ids, pages and members together one returns any given dirty member with a version. |
| DirtyScan.CallProgress | app/infrastructure/realtime_pnl_store.py:1199-1294 | Each call returns the member or comes strictly closer to it. |
| DirtyScan.CallShape | app/infrastructure/realtime_pnl_store.py:1213-1267 | Each call returns at most a batch of distinct ids; the buffer stays free of repetitions and never grows beyond one page. |
| DirtyScan.BufferBound | app/infrastructure/realtime_pnl_store.py:1213-1267 | Over any calls from an empty buffer the buffer never holds a repetition nor more than the largest page. |
| DirtyScan.VersionedContains | app/infrastructure/realtime_pnl_store.py:1268-1294 | What is returned are exactly the scanned ids that have a version, with that version. |
| DirtyScan.DirtyScanStore.ListDirty | app/infrastructure/realtime_pnl_store.py:1314-1400 | Returns the versioned ids of the call, and removes exactly the scanned members that had no version and were not marked meanwhile. |
| DirtyScan.DirtyScanStore.RemoveOrphans | app/infrastructure/realtime_pnl_store.py:59-65 | Removes a member only if it still has no version. |
| DirtyScan.DirtyScanStore.ScanIds | app/infrastructure/realtime_pnl_store.py:1213-1267 | The loop over pages, with its cursor and overflow buffer, is the call of the specification. |
| DirtyScan.DirtyScanStore.AddPage | app/infrastructure/realtime_pnl_store.py:1242-1250 | New ids of a page fill the batch in order, the rest overflow, none is lost. |
| DirtyScan.DirtyScanStore.CompleteDirty | app/infrastructure/realtime_pnl_store.py:1402-1422 | Clears at the expected version, or unconditionally where none is given. |
| DirtyRelation.TwoWayIff | app/infrastructure/realtime_pnl_store.py:266-325 | Contract-to-account and account-to-contract sets are one relation throughout a run exactly when every effective mark gave an account id without surrounding blanks. |
| DirtyRelation.MarkAgreesIff | app/infrastructure/realtime_pnl_store.py:117-137 | One mark keeps the two directions in agreement exactly under that condition. |
| DirtyRelation.CompleteLeavesIff | app/infrastructure/realtime_pnl_store.py:84-101 | Completing a contract leaves its entry under exactly the account keys no account of the contract is written as. |
| DirtyRelation.UnstrippedLeaks | app/infrastructure/realtime_pnl_store.py:84-101 | From a mark with an unstripped id on, the account reads as dirty, completed or not, until the contract is completed while the stripped id has been marked for it too. |
| DirtyRelation.EntryGoesIff | app/infrastructure/realtime_pnl_store.py:84-101 | An entry of an account goes exactly in a step that completes the contract with the stripped id among its accounts. |
| DirtyRelation.CompletedYetDirty | app/infrastructure/realtime_pnl_store.py:84-101 | Its own completion leaves the contract clean and the account dirty. |
| DirtyRelation.StrippedMarkCleans | app/infrastructure/realtime_pnl_store.py:84-101 | A later mark with the stripped id, once completed, cleans it. |
| DirtyRelation.StructureDirtyIff | app/infrastructure/realtime_pnl_store.py:951-1041 | With stripped ids an account reads as structure-dirty exactly when some dirty contract was traded by it. |
| DirtyRelation.RunInvariant | app/infrastructure/realtime_pnl_store.py:266-325 | After any run a contract is dirty exactly when it has a version and exactly when it has accounts, and its accounts see it. |
| DirtyRelation.QueueRefines | app/infrastructure/realtime_pnl_store.py:117-137 | The contracts of any run are a versioned dirty queue, so no mark of theirs is lost. |
| DirtyRelation.ListedCompletes | app/infrastructure/redis_keys.py:282-299 | The codes parsed from a listed member name that member again when it is completed. |
| DirtyRelation.PnlDirtyStore.BumpPositionCacheVersion | app/infrastructure/realtime_pnl_store.py:252-257 | Raises the shared counter and nothing else. |
| DirtyRelation.PnlDirtyStore.MarkContractDirty | app/infrastructure/realtime_pnl_store.py:266-293 | Performs the marking step on counter, set, version and both relations. |
| DirtyRelation.PnlDirtyStore.MarkContractDirtyOnce | app/infrastructure/realtime_pnl_store.py:295-325 | Marks once per event; the event marker is shared with the account facts. |
| DirtyRelation.PnlDirtyStore.MarkAccountFactDirtyOnce | app/infrastructure/realtime_pnl_store.py:327-351 | Marks the account fact once per event. |
| DirtyRelation.PnlDirtyStore.CompleteDirtyAccountFact | app/infrastructure/realtime_pnl_store.py:374-395 | Clears the fact at its version and keeps the version. |
| DirtyRelation.PnlDirtyStore.CompleteDirtyContract | app/infrastructure/realtime_pnl_store.py:428-455 | The loop over the contract's accounts performs the completing step. |
| FactEvents.RiskMarkedIff | app/services/trade_created_pnl_service.py:115-175 | While no marker expires, the risk queue gets exactly the events whose first delivery to reach the PnL store also reached the risk queue. |
| FactEvents.PnlMarkedIff | app/services/trade_created_pnl_service.py:133-160 | The PnL store gets every event that any delivery brings it. |
| FactEvents.RiskHolds | app/services/trade_created_pnl_service.py:133-160 | The risk queue holds exactly the accounts of the events whose marking delivery got as far as it. |
| FactEvents.FactsHold | app/services/trade_created_pnl_service.py:133-160 | The account facts hold exactly the accounts of the fact events that got to the PnL store. |
| FactEvents.ContractsHold | app/services/trade_created_pnl_service.py:133-160 | The dirty contracts are exactly those of the structure events that did. |
| FactEvents.FailedRiskMarkIsLost | app/services/trade_created_pnl_service.py:152-160 | A risk mark that fails once is not repaired by redelivery, contrary to the comment beside it. |
| PnlCycle.VersionIsLastWriter | app/infrastructure/realtime_pnl_store.py:150-217 | After any run of cycle writes, fenced or not, index steps and deletions of snapshot hashes, the snapshot sequence counts the accepted cycles, the version kept for an entity is the number of the last accepted cycle that wrote it, and a hash that is there shows it. |
| PnlCycle.WriteChangesIff | app/infrastructure/realtime_pnl_store.py:193-217 | A write takes effect exactly when the lease key holds the caller value, if it names one, and the expected version, if it names one, is the current one; refused it changes nothing. |
| PnlCycle.TakeoverFences | app/infrastructure/realtime_pnl_store.py:206-216 | Once another has taken over a lost lease, and until it loses it in turn, no write fenced with the former holder value changes anything. |
| PnlCycle.HolderWrites | app/infrastructure/realtime_pnl_store.py:206-216 | While the new holder has the lease its writes take effect, if the version is right. |
| PnlCycle.OtherSteps | app/infrastructure/realtime_pnl_store.py:250-263 | Beside the cycles, a bump raises the cache version by one, and the settlement deletes the hashes it names and no others. |
| PnlCycle.WrittenShows | app/infrastructure/realtime_pnl_store.py:159-166 | An accepted cycle leaves every hash showing its values under its version. |
| PnlCycle.WrittenEvents | app/infrastructure/realtime_pnl_store.py:550-722 | It appends exactly the events of its positions and then of its accounts, under its version. |
| PnlCycle.WrittenMarks | app/infrastructure/realtime_pnl_store.py:560-628 | It marks exactly the entities it wrote, set and version together, or nothing. |
| PnlCycle.WrittenIsMark | app/infrastructure/realtime_pnl_store.py:560-628 | To the dirty queue of positions and accounts an accepted cycle is one mark of all it wrote under its version. |
| CallerVersions.FreshIff | app/infrastructure/realtime_pnl_store.py:49-57 | Whatever is read and completed between them, a sequence of such marks is never lost exactly when no key gets one version twice. |
| CallerVersions.NoLostMark | app/infrastructure/realtime_pnl_store.py:49-57 | With fresh versions a completion that succeeds with the version read means no mark of that key came since. |
| CallerVersions.AfterStep | app/infrastructure/realtime_pnl_store.py:49-57 | A completion clears its key exactly if the version it names is in force; otherwise a key stays dirty under the version of its last mark. |
| CallerVersions.ReusedVersionLoses | app/infrastructure/realtime_pnl_store.py:49-57 | A repeated version does lose a mark: read after its first use, completed after its second. |
| PnlCycle.WrittenIndex | app/infrastructure/realtime_pnl_store.py:724-752 | The index sees its additions and then its removals, whatever else is in the list. |
| PnlCycle.RunKeepsEvents | app/infrastructure/realtime_pnl_store.py:174-189 | Stream events carry the numbers of their cycles in non-decreasing order. |
| PnlCycle.RunProjects | app/infrastructure/realtime_pnl_store.py:724-752 | After any run of cycles, removals and rebuilds the position sets are projections of the active positions and every one is listed. |
| PnlCycle.RunActiveCodes | app/infrastructure/realtime_pnl_store.py:1118-1162 | With exchanges without a colon and order books that are not blank, the codes listed after any run are exactly the normalised order books of the active positions. |
| PnlCycle.ActiveKnown | app/infrastructure/realtime_pnl_store.py:724-752 | Every active position is one that a step named. |
| PnlIndex.RebuildRestores | app/infrastructure/realtime_pnl_store.py:1424-1498 | A rebuild leaves exactly the given positions, whatever was there, because every set was listed. |
| PnlIndex.RebuildExactIff | app/infrastructure/realtime_pnl_store.py:1456-1489 | With given stale keys it is exact precisely when no other set holds a position outside the given ones. |
| PnlIndex.RebuildRaceLeaks | app/infrastructure/realtime_pnl_store.py:1456-1470 | A position added under a new key between reading the keys and replacing them stays, unlisted, through all later rebuilds that lack it. |
| PnlIndex.RemoveKeepsProjects | app/infrastructure/realtime_pnl_store.py:169-173 | Both ways of removing a position keep sets exact and listed. |
| PnlIndex.PrunedIff | app/infrastructure/realtime_pnl_store.py:169-173 | A cycle that takes the last position out of a set takes its key off the list as well, and no other key. |
| PnlIndex.ActiveCodesIff | app/infrastructure/realtime_pnl_store.py:1118-1162 | For known active positions, the codes are exactly those read from their keys. |
| PnlIndex.CodeOfIff | app/infrastructure/redis_keys.py:273-279 | A key gives back its order book exactly when the exchange has no colon and the order book is not blank. |
| PnlStore.RealtimePnlStore.BuildCycleOperations | app/infrastructure/realtime_pnl_store.py:532-753 | The loops build the operations of the specification, in order. |
| PnlStore.RealtimePnlStore.ApplyOperations | app/infrastructure/realtime_pnl_store.py:150-191 | The script's loop applies them one by one. |
| PnlStore.RealtimePnlStore.WriteCycleSnapshots | app/infrastructure/realtime_pnl_store.py:755-802 | The unfenced write: refused and without effect when the facts have moved on. |
| PnlStore.RealtimePnlStore.WriteCycleSnapshotsIfLeaseValueOwned | app/infrastructure/realtime_pnl_store.py:856-898 | The fenced write and what it returns. |
| PnlStore.RealtimePnlStore.RemoveContractPosition | app/infrastructure/realtime_pnl_store.py:1180-1197 | Removes the position from both sets and leaves the keys listed. |
| PnlStore.RealtimePnlStore.RebuildActiveIndexes | app/infrastructure/realtime_pnl_store.py:1424-1498 | Three attempts, each ending clean, aborted by a raised version or with a dropped connection: succeeds exactly when the version matches and the first attempt that is not dropped at an unchanged version is clean, and leaves what the attempts executed leave. |
| PnlStore.SucceedsIff | app/infrastructure/realtime_pnl_store.py:1446-1498 | A dropped attempt can be followed by a successful one, an attempt aborted because the version rose cannot. |
| PnlStore.CalledIsOneRebuild | app/infrastructure/realtime_pnl_store.py:1446-1498 | However often they were replaced, indexes and codes are left as they were or as by one undisturbed rebuild; a call that returns true replaced them, and one that returns false did if an executed attempt lost its reply. |
| PnlStore.DroppedInstances | app/infrastructure/realtime_pnl_store.py:1446-1498 | Two drops and a clean attempt succeed; three drops, one of them executed, fail with everything replaced. |
| PnlStore.RealtimePnlStore.ListMarginDependencyCodes | app/infrastructure/realtime_pnl_store.py:1164-1178 | Returns the normalised codes of the last rebuild. |
| PercentCodec.NormalCodesStable | app/infrastructure/realtime_pnl_store.py:1439-1445 | Normalising a set of codes again changes nothing. |
| PnlStore.RealtimePnlStore.ListActiveContractCodes | app/infrastructure/realtime_pnl_store.py:1118-1162 | The loop over listed keys returns the active codes. |
| CashValuation.CleanMeansCurrent | app/services/cash_security_valuation_service.py:299-364 | After any run of any number of workers, with leases expiring, workers delayed and commits or publications failing at any point, an account that is not dirty and has no announcement on its way is valued and published from its latest facts. |
| CashValuation.Fencing | app/repositories/cash_security_valuation_fence_repository.py:15-47 | Over whole runs a token belongs to one worker, accepted durable writes come in token order, and an overtaken worker writes nothing, whichever step it takes, a commit that fails or is applied without a reply included. |
| CashValuation.StalledServesNothing | app/workers/cash_security_valuation_worker.py:183-213 | A worker whose fence activation raised keeps renewing its lease: for as long as it does nothing is valued or published, no account leaves the queue and no other worker gets a token. |
| CashValuation.AcquiredIsStalled | app/workers/cash_security_valuation_worker.py:184-190 | Every acquisition passes through that state and the activation that follows ends it. |
| CashValuation.RunOnlyAdvances | app/infrastructure/cash_security_valuation_store.py:47-65 | Issued tokens only grow in number, the fence never goes back, the history of writes is only extended. |
| CashValuation.TokensAreUnique | app/infrastructure/cash_security_valuation_store.py:47-53 | Two workers never hold one token, nor the lease together. |
| CashValuation.UndisturbedTaskCompletes | app/services/cash_security_valuation_service.py:307-363 | A task served by the current holder is valued, published and cleared. |
| CashValuation.IdleWorkerServes | app/workers/cash_security_valuation_worker.py:183-205 | An idle worker that finds the lease free serves any dirty account: it gets lease and fence, lists, values, publishes and clears it. |
| CashValuation.AlwaysGoesOn | app/services/cash_security_valuation_service.py:307-363 | A worker is never stuck: whatever its stage it may try to publish, complete or go on, and give its task up. |
| CashValuation.FactCases | app/infrastructure/cash_security_valuation_store.py:33-45 | A change is announced later, and the announcement, like a repeated one, marks the account afresh. |
| CashValuation.LeaseEnds | app/workers/cash_security_valuation_worker.py:184-217 | A lease expires, a worker forgets its token or gives its lease up; one whose activation is refused does both. |
| CashValuation.FailedCalls | app/services/cash_security_valuation_service.py:318-356 | A commit that raises leaves the snapshot it computed to be published, a publication that raises gives the task up, applied or not. |
| CashValuation.LeaseKeepsInvariant | app/workers/cash_security_valuation_worker.py:184-205 | Acquiring, activating, losing and releasing the lease keep the invariant. |
| CashValuation.WorkKeepsInvariant | app/services/cash_security_valuation_service.py:307-363 | So do listing, valuing, publishing, completing and giving up, and a commit or a publication that raises, applied or not. |
| CashValuation.FactKeepsInvariant | app/infrastructure/cash_security_valuation_store.py:33-45 | So do facts that change, announcements and repeated marks. |
| ValuationStore.MarkAllFresh | app/infrastructure/cash_security_valuation_store.py:33-45 | One script marks each account with a version of its own, in order, newer than all before. |
| ValuationStore.MarkAllKeys | app/infrastructure/cash_security_valuation_store.py:33-45 | The script marks exactly the given accounts and keeps the versions of the others. |
| ValuationStore.RequestedIff | app/infrastructure/cash_security_valuation_store.py:188-203 | An id is marked exactly if it is not empty, has no blanks at its ends and some given id is it between blanks. |
| ValuationStore.LeaseCases | app/infrastructure/cash_security_valuation_store.py:47-65 | The lease is taken only while free, under the next token, and given back only by its owner with its token. |
| ValuationStore.FenceCases | app/repositories/cash_security_valuation_fence_repository.py:15-35 | The fence moves to every token that is not smaller, the same one included, and to no other. |
| ValuationStore.CompleteCases | app/infrastructure/cash_security_valuation_store.py:26-31 | A completion clears its account exactly if the version read is still in force, and nothing else. |
| ValuationStore.ListedIff | app/infrastructure/cash_security_valuation_store.py:205-210 | A dirty account is in the batch exactly when fewer than a batch of dirty accounts sort before it. |
| ValuationStore.CashSecurityValuationStore.ListDirtyAccounts | app/infrastructure/cash_security_valuation_store.py:205-210 | Returns the first dirty accounts in sorted order, each with the version in force. |
| CashQueue.QueueRefines | app/infrastructure/cash_security_valuation_store.py:26-45 | The dirty accounts of any run are a versioned queue with one counter whose clears delete versions. |
| CashQueue.NoLostMark | app/infrastructure/cash_security_valuation_store.py:26-31 | A completion with the version read succeeds only if the account was not marked since. |
| ValuationStore.CashSecurityValuationStore.MarkAccountsDirty | app/infrastructure/cash_security_valuation_store.py:188-203 | Marks the stripped, non-blank ids once each in sorted order, and the versions it returns are the ones in force. |
| ValuationStore.CashSecurityValuationStore.CompleteDirtyAccount | app/infrastructure/cash_security_valuation_store.py:26-31 | Clears the account only at the expected version. |
| ValuationStore.CashSecurityValuationStore.AcquireWriterLease | app/infrastructure/cash_security_valuation_store.py:47-53 | A free lease is taken under the next token, a held one refused. |
| ValuationStore.CashSecurityValuationStore.ReleaseWriterLease | app/infrastructure/cash_security_valuation_store.py:62-65 | Only owner and token together release it. |
| ValuationStore.CashSecurityValuationFenceRepository.Activate | app/repositories/cash_security_valuation_fence_repository.py:15-35 | The fence moves to any token at least as large, and never back. |
| ActiveOrders.RunProjects | app/infrastructure/active_order_index.py:28-79 | After any run of adds, redeliveries, rebuilds, removals, the last with details read before other writers came in between, and sweeps of reconciliation every derived set is the projection of the order details. |
| ActiveOrders.ListensIff | app/infrastructure/active_order_index.py:171-190 | After any run an order is in the set of an underlying exactly if it is active, is an option, sells to open and names that underlying by both its codes. |
| ActiveOrders.ListedIff | app/infrastructure/active_order_index.py:28-46 | It is in the set of an instrument, of an account and in the global set exactly if it is active and has those codes and that account. |
| ActiveOrders.RememberedIff | app/infrastructure/active_order_index.py:28-66 | An event marker is there from the addition, or the removal that names the event, until it expires. |
| ActiveOrders.ConformsIff | app/infrastructure/active_order_index.py:192-326 | The runs spoken of: orders written as they are known, removals that have read the order or found it absent when it still is. |
| ActiveOrders.RemoveExactIff | app/infrastructure/active_order_index.py:49-66 | A removal leaves the contracts exact precisely when the contract goes with the last order that needs it: kept for remaining orders of the same raw codes or an empty order book code, dropped otherwise. |
| ActiveOrders.LateAddIff | app/infrastructure/active_order_index.py:289-326 | A removal that read no details, of an order added before its script runs, is exact precisely if neither its contract nor its place under an underlying should go. |
| ActiveOrders.NormalCodesCohere | app/infrastructure/redis_keys.py:178-190 | Normal codes without a colon, exchange and symbol fixing order book and domain, meet that condition for every removal. |
| ActiveOrders.ReconcileRestores | app/infrastructure/active_order_index.py:443-476 | From any superset left behind reconciliation restores exactly the contracts of the active orders. |
| ActiveOrders.RunKeepsMember | app/infrastructure/active_order_index.py:443-476 | Beside any other writers no sweep takes a contract that an active order needs, and once swept a contract of a known order is right and stays right. |
| ActiveOrders.ReconciliationRestores | app/infrastructure/active_order_index.py:443-476 | So a whole reconciliation interleaved with adds, rebuilds and removals ends with exactly the contracts of the orders then active, in both domains. |
| ActiveOrders.SurvivesIff | app/infrastructure/active_order_index.py:456-475 | The contract of an order survives reconciliation exactly when an active order has the normalised codes as its raw ones. |
| ActiveOrders.LowerCaseIsDropped | app/infrastructure/active_order_index.py:456-475 | So a single active order in lower case loses its contract. |
| ActiveOrders.ActiveCodesIff | app/infrastructure/active_order_index.py:381-404 | The codes of a domain are the normalised, non-empty order book codes of its active orders. |
| ActiveOrders.UpsertContracts | app/infrastructure/active_order_index.py:28-46 | Adding an order keeps the contracts of both domains exact. |
| ActiveOrders.ActiveOrderIndex.AddActiveOrder | app/infrastructure/active_order_index.py:192-230 | Writes the order under all keys, reports whether the event is new; an unknown instrument type raises first. |
| ActiveOrders.ActiveOrderIndex.UpsertActiveOrderForRebuild | app/infrastructure/active_order_index.py:232-259 | Writes the same without an event marker. |
| ActiveOrders.ActiveOrderIndex.RemoveActiveOrder | app/infrastructure/active_order_index.py:276-326 | Reads the details and runs the script, with nothing in between. |
| ActiveOrders.ActiveOrderIndex.RunRemoval | app/infrastructure/active_order_index.py:49-66 | The script with details read before: removes the order, and the contract member with the last order of the raw codes. |
| ActiveOrders.ActiveOrderIndex.ListActiveContractCodes | app/infrastructure/active_order_index.py:381-404 | The loop over members returns the active codes. |
| ActiveOrders.ActiveOrderIndex.ReconcileActiveContracts | app/infrastructure/active_order_index.py:443-476 | One script per member with other writers in between: a run that sweeps every futures contract listed first and every securities contract listed after; undisturbed, both loops leave the surviving members and count the others. |
| PercentCodec.UnquoteQuote | app/infrastructure/redis_keys.py:282-299 | Percent-decoding undoes percent-encoding (section 2.1 of RFC 3986) for every text. |
| PercentCodec.QuoteIsSafe | app/infrastructure/redis_keys.py:178-190 | Encoded text holds only unreserved characters and percent signs, so never a separator. |
| PercentCodec.ContractMemberRoundTrip | app/infrastructure/redis_keys.py:282-299 | Parsing a dirty-contract member gives the normalised parts. |
| PercentCodec.OrderMemberRoundTrip | app/infrastructure/redis_keys.py:178-205 | Parsing an active-order member gives the three normalised parts. |
| PercentCodec.NormalIdempotent | app/infrastructure/redis_keys.py:273-279 | Normalising twice is normalising once. |
| PercentCodec.StripSplits | app/infrastructure/redis_keys.py:273-279 | Stripping takes blanks off both ends and nothing else. |
| PercentCodec.StripIs | app/infrastructure/redis_keys.py:273-279 | A text between blanks with none at its own ends is what stripping leaves. |
| PercentCodec.UpperAt | app/infrastructure/redis_keys.py:273-279 | Upper-casing moves the small letters to the capital ones and leaves every other octet. |
| PercentCodec.QuoteFormat | app/infrastructure/redis_keys.py:178-206 | Letters, digits and four marks stand for themselves, every other octet for its two upper-case hexadecimal digits (section 2.3 of RFC 3986). |
| PreSubscription.PrefixExact | app/infrastructure/market_pre_subscription_store.py:64-71 | A member starts with an account's prefix exactly when it is that account's. |
| PreSubscription.QuotaHolds | app/infrastructure/market_pre_subscription_store.py:10-31 | No run of requests and reads at any times takes an account past its limit. |
| PreSubscription.OwnedAfterRequest | app/infrastructure/market_pre_subscription_store.py:10-31 | After a request that fits the account holds what was live and what is new. |
| PreSubscription.GrantedIff | app/infrastructure/market_pre_subscription_store.py:21-33 | A request is granted exactly if what the account holds unexpired and what it asks for number at most its limit together, the limit included. |
| PreSubscription.RequestCases | app/infrastructure/market_pre_subscription_store.py:16-36 | Granted it leaves what GrantIsReadable speaks of; refused it drops what has expired, of any account, and nothing else; for no code it changes nothing. |
| PreSubscription.RunGrants | app/infrastructure/market_pre_subscription_store.py:10-36 | In any run a request that fits is granted. |
| PreSubscription.RunReads | app/infrastructure/market_pre_subscription_store.py:10-36 | A read in any run drops what has expired and nothing else. |
| PreSubscription.OthersKeepUnexpired | app/infrastructure/market_pre_subscription_store.py:10-31 | A request touches another account only by dropping what has expired of it. |
| PreSubscription.MemberRoundTrip | app/infrastructure/market_pre_subscription_store.py:64-75 | Parsing a member gives the stripped account and the normalised code. |
| PreSubscription.RowIff | app/infrastructure/market_pre_subscription_store.py:119-142 | An account and code show with an expiry exactly when their member is held until then and has not expired. |
| PreSubscription.GrantIsReadable | app/infrastructure/market_pre_subscription_store.py:83-117 | After a request that fits every code asked for is readable until the new expiry. |
| PreSubscription.RunEncoded | app/infrastructure/market_pre_subscription_store.py:64-75 | Every member ever stored decodes to the parts it was made of. |
| PreSubscription.MarketPreSubscriptionStore.RequestCodes | app/infrastructure/market_pre_subscription_store.py:83-117 | No codes, over the limit or accepted, with the rows left in each case. |
| PreSubscription.MarketPreSubscriptionStore.CountStarting | app/infrastructure/market_pre_subscription_store.py:13-18 | The first counting loop counts the members with the prefix. |
| PreSubscription.MarketPreSubscriptionStore.CountNew | app/infrastructure/market_pre_subscription_store.py:19-23 | The second counts the members not yet held. |
| PreSubscription.MarketPreSubscriptionStore.ReadActiveRows | app/infrastructure/market_pre_subscription_store.py:119-142 | Drops what has expired and returns the rest, decoded. |
| PreSubscription.MarketPreSubscriptionStore.ListActiveContractCodes | app/infrastructure/market_pre_subscription_store.py:144-147 | The codes of all unexpired rows. |
| DecimalText.IsGreaterIff | app/realtime/event_store.py:21-36 | The Lua comparison holds exactly when the number is greater, for any length and leading zeros. |
| DecimalText.CoversIff | app/realtime/snapshot_service.py:87-99 | The Python comparison, of what is left after replacing missing values and stripping, holds exactly for two numbers the first of which is at least the second, and is then the negation of the Lua one reversed. |
| DecimalText.MissingIsCoveredIff | app/realtime/snapshot_service.py:87-99 | A missing or empty current version is covered by every number and by nothing else. |
| DecimalText.WrittenBy | app/realtime/snapshot_service.py:87-99 | Every number is written by some digits, all ten of them used. |
| DecimalText.ReadCases | app/realtime/snapshot_service.py:87-99 | A value given and not empty is read between its blanks, otherwise the replacement. |
| Projection.StreamIsOrdered | app/realtime/event_store.py:14-55 | For any order and repetition of deliveries and any expiry of markers the stream holds each event at most once and the versions of an aggregate strictly increase. |
| Projection.FirstIsPublished | app/realtime/event_store.py:14-55 | The first event of an aggregate is published whatever its number, if it names both. |
| Projection.RememberedIff | app/realtime/event_store.py:14-55 | An event is remembered from its first valid delivery until its marker expires; only a valid one leaves any trace. |
| Projection.VersionConverges | app/realtime/event_store.py:38-55 | The version kept for an aggregate is the largest delivered, however deliveries were ordered. |
| Projection.PublishedIff | app/realtime/event_store.py:14-55 | A delivery reaches the stream exactly when every earlier one of its aggregate was older; the marker never matters. |
| Projection.RealtimeEventStore.PublishProjectedOnce | app/realtime/event_store.py:93-145 | Invalid versions raise and write nothing; otherwise the gate and the marker decide. |
| Outbox.FinalStaysFinal | app/repositories/outbox_repository.py:201-305 | While publishers mark within their claims, an event sent or given up is never touched or claimed again. |
| Outbox.RetriesAreBounded | app/repositories/outbox_repository.py:263-291 | Failures stay within the limit, an event is given up exactly there, and the waits are the capped doublings in order. |
| Outbox.NotClaimedEarly | app/repositories/outbox_repository.py:217-245 | A claimed event is not claimed again before its deadline unless it was marked. |
| Outbox.ClaimableIff | app/repositories/outbox_repository.py:213-226 | An event is claimable exactly if it is pending and its retry time, if any, has come, or its claim has run out. |
| Outbox.FailureBacksOff | app/repositories/outbox_repository.py:210-262 | After its n-th failure, unless that was the last one allowed, an event is pending and nobody claims it before the delay for n has passed; ThenClaimable: then it can be claimed. |
| Outbox.FailureSchedules | app/repositories/outbox_repository.py:250-262 | The failed event is pending under its next count, with the time of failure plus its delay. |
| Outbox.ThenClaimable | app/repositories/outbox_repository.py:213-226 | When that time has come it can be claimed. |
| Outbox.PromptPublisherSends | app/repositories/outbox_repository.py:201-250 | A publisher that claims, reads and marks before its claim runs out sends the event. |
| Outbox.MarksCases | app/repositories/outbox_repository.py:247-262 | What a mark leaves of the row: sent, given up at the limit, or pending again after the delay. |
| Outbox.TicketCases | app/repositories/outbox_repository.py:201-262 | What becomes of a claim in hand: gone once marked or abandoned, or if its row is claimed no more. |
| Outbox.TimelyMarkIsFresh | app/workers/outbox_publisher_worker.py:75-112 | A mark within its claim acts on the row exactly as it stands. |
| Outbox.LateMarkRevertsIff | app/workers/outbox_publisher_worker.py:75-112 | A mark on a final row changes its status exactly when the mark's own outcome is another one. |
| Outbox.LateFailureReopensSent | app/workers/outbox_publisher_worker.py:78-105 | A reachable run in which a publisher that overran its claim returns a sent event to the queue. |
| Outbox.DelayIsCappedDoubling | app/repositories/outbox_repository.py:288-290 | The wait is the smaller of 300 and 5 doubled per earlier failure, and never shrinks. |
| Outbox.ChosenIff | app/repositories/outbox_repository.py:217-236 | A due, unlocked row is passed over only for a full batch of earlier ones. |
| Outbox.ClaimPendingEvents | app/repositories/outbox_repository.py:201-246 | Claims exactly the chosen rows until the deadline and leaves the others. |
| Outbox.OutboxEvent.MarkSent | app/repositories/outbox_repository.py:248-260 | The row becomes final. |
| Outbox.OutboxEvent.MarkRetry | app/repositories/outbox_repository.py:263-291 | One more failure: given up at the limit, else due again after the wait. |
| KeysetPaging.PagingIsComplete | app/services/order_service.py:1371-1418 | Following the cursor ends and yields every matching row below the start once, in descending order, whatever larger rows are inserted meanwhile. |
| KeysetPaging.FirstPageStartsAbove | app/services/order_service.py:1371-1418 | So does a walk that starts without a cursor, for the rows of its first page's time. |
| KeysetPaging.PageIsPrefix | app/repositories/order_repository.py:178-202 | A page is the first rows below the cursor, and there is a next cursor exactly when rows remain. |
| KeysetPaging.FollowEndsIff | app/services/order_service.py:1394-1418 | A client knows that it has everything exactly if its last page said there was no more. |
| KeysetPaging.DescendingIsExact | app/repositories/trade_repository.py:92-111 | The order by descending id lists every matching id once. |
| KeysetPaging.ZeroLimitStrands | app/services/order_service.py:1394-1418 | A limit of zero, which both APIs refuse before the service sees it, would say there is more and give no cursor. |
| CursorCodec.Base64RoundTrip | app/common/pagination_cursor.py:45-83 | Decoding undoes encoding through the stripped padding and surrounding blanks (section 5 of RFC 4648). |
| CursorCodec.CursorRoundTrip | app/common/pagination_cursor.py:23-122 | A cursor gives back its position for the same kind and filters within its lifetime, and the stated error otherwise, through JSON and base64. |
| CursorCodec.PayloadRoundTrip | app/common/pagination_cursor.py:23-83 | Every payload, whatever its texts and filters, is read back from its cursor. |
| CursorCodec.PayloadFormat | app/common/pagination_cursor.py:23-44 | The payload has its five members under their names, the version being 1, and any other version is refused. |
| CursorCodec.PaddingIsLast | app/common/pagination_cursor.py:61-83 | Padding before the end of the text is refused. |
| CursorCodec.Alphabet | app/common/pagination_cursor.py:45-60 | The URL alphabet of section 5 of RFC 4648. |
| JsonText.ParsePrinted | app/common/pagination_cursor.py:39-44 | Parsing undoes compact printing for every value of objects, strings, integers and null (section 7 of RFC 8259 for the escapes). |
| JsonText.EscapeFormat | app/common/pagination_cursor.py:39-44 | The escapes: a letter where there is one, four hexadecimal digits for other control characters, nothing else (section 7 of RFC 8259). |
| DailyFacts.NewestWins | app/repositories/stock_daily_trading_fact_repository.py:51-130 | For any order and repetition of deliveries the row ends with the fact synchronised last. |
| DailyFacts.OrderDoesNotMatter | app/repositories/stock_daily_trading_fact_repository.py:51-130 | Two histories of the same events agree on the fact. |
| DailyFacts.NeverGoesBack | app/repositories/stock_daily_trading_fact_repository.py:111-130 | The stored timestamp never goes back, whatever is delivered. |
| DailyFacts.EitherOrderIff | app/repositories/stock_daily_trading_fact_repository.py:111-118 | Two facts give one row in either order exactly when they are the same or differ in event and timestamp. |
| DailyFacts.Cases | app/repositories/stock_daily_trading_fact_repository.py:95-130 | What each delivery reports and does by the row it finds: no row, the same event, an earlier, the same or a later timestamp. |
| DailyFacts.TimesOf | app/repositories/stock_daily_trading_fact_repository.py:51-130 | The row keeps the time of its first delivery and that of the first delivery of the fact it holds. |
| DailyFacts.StockDailyTradingFactRepository.Upsert | app/repositories/stock_daily_trading_fact_repository.py:51-130 | The result and row of each case, for its instrument and day only. |

## Left out

- Settlement, margin, order entry, corporate actions and the matching engine: not part of this model.
- Routes, authentication, sessions, SQL text, migrations, settings, logging and metrics: plumbing.
- Socket I/O of the sender task, and the pause of `close` while that task ends: closing is one step.
- The text form of Stream ids: versions are pairs of numbers, and a malformed one is the smallest pair.
- Unicode stripping and upper-casing, and Unicode digits: only the ASCII ones are modelled.
- Trimming of streams by MAXLEN: the modelled streams keep every entry.
- Bodies of PnL events, and the choice between the ordinary and the option event type.
- `write_snapshots`, which writes without a cycle version; of `rebuild_after_daily_settlement`, the removal of expired
  positions from account sets just before the rebuild that restores both kinds of set.
- `update_margin_risk_snapshot` on removed orders, the margin dependency codes of orders and `remove_orphan_order_id`.
- The position index of the cash valuation store: it would add only easy members beside the PnL index.
- Redis replies for lease renewals: a renewal changes nothing but a lifetime, and lifetimes are expiry steps.
- `get_account_requests`: the rows it picks from are those of ReadActiveRows.
- GatewayConsumer.StepKeepsInvariant: the loop of `run` is an automaton over its suspension points; only `_handle` is also a
  method, for one message at a time.
- DirtyScan.FairScan: a call's pages are as many as before and no larger than stated, which is what SSCAN gives over a set that
  does not outgrow its table; a rehash in between starts the count afresh.
- DirtyScan.DirtyScanStore.CompleteDirty: the form without a version is modelled but not part of the queue theorems.
- ActiveOrders.ActiveOrderIndex.ReconcileActiveContracts: the order of the members within a domain is any order, not the sorted one.
- PnlIndex.RebuildRestores: reading the keys and replacing them are one step; RebuildExactIff and RebuildRaceLeaks cover the
  other case.
- CashValuation.CleanMeansCurrent: speaks of the fenced path that the worker uses; the valuation itself is opaque, and an account
  that is not a cash account has nothing to value.
- DeliverySystem.DeliveryIsExact: assumes routing in stream order with repetitions outside the snapshot window; StreamRouting says
  which consumptions route so, RedeliverySafeIff, LiveEventDeliveredIff and LateFirstDeliveryIsDropped what happens otherwise.
- StreamRouting.ConsumedDeliveryIsExact: for a client whose gateway does the routing while it is connected; a repeated routing
  between cursor and snapshot is assumed away as in DeliveryIsExact.
- PnlStore.RealtimePnlStore.RebuildActiveIndexes: other clients raise the version but do not write the indexes during the call, and an
  exception other than the abort, which leaves it as the attempts before left it, is not modelled.
- CursorCodec.CursorRoundTrip: for cursors as issued; of others, Python also reads cursors with foreign characters or spaced JSON,
  which the modelled reader refuses.
- Outbox.FinalStaysFinal: needs marks within the claim; LateMarkRevertsIff says what a late one does.
- PreSubscription.MarketPreSubscriptionStore.RequestCodes: times are whole microseconds.

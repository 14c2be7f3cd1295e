# A verified model of the pytvt toolkit

pytvt talks to TVT recorders: it pools device sessions, delivers number-plate events through a persistent runtime,
registers native callbacks, edits encode profiles, speaks the recorder's packet protocol and compares scans. This
project models the parts of it that carry real state, interleavings or exact byte-level meaning, and proves what they
keep over every run and every input. `dafny verify dfyconfig.toml` checks all of it.

## How it is modelled

Objects whose methods change their fields are classes here, with the same fields and one method for each locked
section or call. Each method is tied by its contract to a pure function of the old state, or to a declarative
description. Where several threads or machines take part, the same pure functions are the steps of a transition
system, and the main results speak about every run of it.

- **Session pool** (`PoolSections`, `SessionPool`, `PoolRuns`, `PoolLimits`). `acquire` is two locked sections with
  network I/O between them; keepalive takes a snapshot, probes unlocked and writes back. Threads have program counters
  and may be interleaved at every section. Conservation of sessions, exclusive handout, who may close a session under
  its holder, and the exact session limit.
- **Acknowledged plate delivery** (`PlateStream`, `DeliveryRuns`, `DeliveryRecovery`, `PlainDelivery`). The client proxy against a runtime that retains one
  delivery until it is acknowledged; every exchange may lose its request, lose its reply or return a malformed one, and
  proxies can be re-attached. What is delivered, what a close abandons, and from which states retries recover.
- **Runtime reply** (`ResponseReader`). The chunk-by-chunk reader against the meaning of the whole byte stream.
- **Native callback slot** (`CallbackSlot`), **compensated subscriptions** (`Subscriptions`) and the **bounded event
  queue** behind the callback (`EventQueue`). Readers of the queue may take items between any two steps of a callback.
- **Guarded encode update** (`XmlAttributes`, `EncodeUpdate`). Printer, lenient parser, and the read-compare-write-verify
  sequence.
- **Packets and login ciphers** (`Packets`, `Decimals`, `LoginCiphers`).
- **Alarm listener** (`AlarmListener`), **log analysis** (`LogAnalysis`, `LogMeaning`), **byte ranges** (`ByteRanges`), **scan diff**
  (`SortKeys`, `ScanDiff`, `ScanMeaning`). `Outcomes`, `Counting` and `Sockets` hold what several modules share.

## Where the code does not do what its documentation says

Each of these is proved, with the exact condition under which the documented behaviour does hold.

- README.md line 611 and the class documentation call `max_active_sessions` a hard cap. It is one for at most one acquire
  between check and insertion (`CapacityFromStart`), and the excess is exactly one for each further one
  (`CapacityIsTight`). Even then it limits the sessions not marked failed, not the open ones: these are as many more as
  sessions are marked failed (`OpenSessionsBound`), which can be any number in any configuration
  (`OpenSessionsCanExceedTheMaximum`).
- "Get or create a session": for a key that is in use, the created session closes the one in use
  (`SecondAcquireClosesTheFirst`, `ClosedUnderItsHolder`).
- "Preserving an unacknowledged delivery by default": a proxy re-attached to a retained delivery stops the stream, and so
  abandons it, if it is closed before its first poll (`PlainCloseDiscardsIffUnpolled`; `PlainCloseDiscardsIff` is exact
  for every runtime and caller). A caller that polls before it retries an unconfirmed ack can lose an event if the
  runtime confirms repeated acks at any time (`ImpatientCloseLosesAnEvent`, `StepKeepsGuardedIff`), and is blocked until
  it re-attaches if the runtime confirms them only while it retains nothing (`ImpatienceBlocks`, `RecoversIff`).
- "Reserve ownership so another client cannot start or clean up": the clear and the reservation are two locked sections;
  another client can start between them, and then clean up (`SeparateReservationAdmitsASecondClient`;
  `StepIsSoundIffGuarded` is the exact guard, `OnlyTheOwnerCleansUp` what it achieves).
  A late reservation can also take the slot from a client whose callback is installed (`StaleReservationTakesTheSlot`).
- "... until this stream retries or its owner exits": an owned slot can become free again exactly while its owner has its
  library handle, unless another client takes it over (`OwnerCanBeFreedIff`). A retry after the owner's cleanup reserves
  for good and locks out every other client, also a live one (`ReservationAfterCleanupMakesADeadOwner`,
  `RetryLocksOutALiveClient`, `OrphanedForever`).
- "Applies only the keys you pass": a missing other profile is written as a default one
  (`OtherProfileIsKeptIffPresent`).
- docs/LPR_EVENT_INGESTION.md lines 71-72: a cap on queued image evidence. The cap also counts the bytes of events that a
  reader took and has not yet recorded. A callback at that moment evicts queued events although the queue had room,
  exactly when the bytes in hand bring the sum over the limit (`RoomIsWastedIff`, `EverythingIsEvictedIff`), or refuses its
  own event under the other policy (`Enqueue`); queueing nine bytes, taking them and queueing one more leads to the state
  of `RoomIsWasted`.
- "Accept and dispatch connections until `close` is called": the loop ends with an error instead, exactly when it calls
  `accept` after `close` emptied the socket field, which takes a close between the loop's check and its call
  (`LoopCrashesIff`, `CloseIsDangerousIff`, `CrashIsReachable`).
- A "head" command without payload is read as an init packet (`HeadFrameParsesIff`). A digit in a username can be lost
  (`CollideIff`, `DigitIsLost`, `TwiceIsIdentityIff`).
- "Ints first numerically": of the ranges that include zero, exactly those from -1 or later up to 10^10 - 1
  (`RangeAscendsIff`); -1 comes before -2, and 10^10 before 10^10 - 1. "If channel is missing/empty, cameras are compared
  positionally": they are compared by object identity, so two equal scans differ (`CopyReportsNothingIffPlaced`).

## What is assumed of the environment

- The runtime's server is not in the repository. It is modelled from what its client relies on: one stream's requests
  are handled in order, an outstanding delivery is replayed until its sequence is acknowledged, sequences grow, a stop
  discards, and a request does not arrive after its exchange failed and a later one was answered. Whether it confirms a
  repeated ack only while it retains nothing, or always, is a parameter.
- The native SDK calls no callback once a clear or a cleanup was accepted; callbacks already inside may take any time. A
  wait for them may time out at any moment. Client objects stay reachable while a callback is inside them: the process
  keeps only weak references to them, so whoever drops the last reference to a cleaned-up client with callbacks in flight
  drops its thunk too.
- Sockets deliver any non-empty chunk up to what was asked for, or close. Clock readings are parameters that need not
  grow. Answers of the device, of the native library and of the thread library are parameters.

## Model

| member | source | states |
|---|---|---|
| `SessionPool.ConnectionPool.AcquireCheck` | src/pytvt/connection_pool.py:240-252 | the first locked section of `acquire`: result and new state are those of the pure section `Check`/`AfterCheck`, which every run of `PoolRuns` is made of |
| `SessionPool.ConnectionPool.ActiveCount` | src/pytvt/connection_pool.py:451-452 | the loop counts exactly the keys whose session is not marked failed |
| `SessionPool.ConnectionPool.AcquireInsert` | src/pytvt/connection_pool.py:275-280 | the second locked section: the previous session under the key is logged out, used or not, and replaced; one connect is counted |
| `SessionPool.ConnectionPool.ReleaseSession` | src/pytvt/connection_pool.py:284-293 | the session found in the pool becomes idle; one that is not there changes nothing |
| `SessionPool.ConnectionPool.RemoveSession` | src/pytvt/connection_pool.py:295-305 | the session found in the pool leaves it and is logged out; one that is not there changes nothing |
| `SessionPool.ConnectionPool.KeepaliveSnapshot` | src/pytvt/connection_pool.py:361-362 | the probe list holds every idle, not failed session exactly once |
| `SessionPool.ConnectionPool.ProbeWriteBack` | src/pytvt/connection_pool.py:367-380 | the write-back after one unlocked probe, also to an entry that left the pool or was handed out meanwhile |
| `SessionPool.ConnectionPool.FindStale` | src/pytvt/connection_pool.py:406-410 | exactly the keys of idle sessions unseen for longer than the timeout |
| `SessionPool.ConnectionPool.EvictStale` | src/pytvt/connection_pool.py:402-414 | all stale sessions, and no others, leave the pool and are logged out once each |
| `SessionPool.ConnectionPool.DropForReconnect` | src/pytvt/connection_pool.py:421-425 | the session under the key is logged out and leaves the pool, whether it is in use or not |
| `SessionPool.ConnectionPool.Close` | src/pytvt/connection_pool.py:482-485 | every pooled session is logged out once and the pool is empty |
| `PoolSections.ClosingConserves` | src/pytvt/connection_pool.py:444-449 | logging out any set of keys keeps the conservation invariant and removes exactly those keys from the count |
| `PoolSections.InsertionConserves` | src/pytvt/connection_pool.py:275-280 | inserting a new session keeps the conservation invariant and adds exactly its key to the count |
| `PoolSections.FlagsConserve` | src/pytvt/connection_pool.py:367-377 | rewriting flags of an entry, in the pool or not, moves no session |
| `PoolSections.ReleasedIsReused` | src/pytvt/connection_pool.py:284-292 | a released session that is not failed is what the next acquire for its key returns |
| `PoolSections.FailuresInARow` | src/pytvt/connection_pool.py:367-375 | counted from the last good probe, a session is marked failed by exactly max_reconnect_attempts failures in a row |
| `PoolSections.StaysPooledIff` | src/pytvt/connection_pool.py:406-413 | eviction keeps a session, failed or not, iff it is in use or was seen within the timeout |
| `PoolSections.ReleasedIsEvictedIff` | src/pytvt/connection_pool.py:289-290 | after a release at time t, an eviction at time now leaves the session to the next acquire iff now - t is within the timeout |
| `PoolSections.InsertedIsEvictedIff` | src/pytvt/connection_pool.py:267-280 | a new session is safe from eviction while its caller has it, and after its release as any other |
| `PoolSections.ReusedIsEvictedIff` | src/pytvt/connection_pool.py:241-246 | a reused session is not handed out again and not evicted before its release, and counts from then |
| `PoolSections.ProbedIsEvictedIff` | src/pytvt/connection_pool.py:369-373 | a good probe counts as use of an idle session, a failed one does not |
| `PoolSections.ProbedIffReusable` | src/pytvt/connection_pool.py:361-362 | keepalive probes exactly the sessions that some acquire would get |
| `PoolSections.RefusedIffFull` | src/pytvt/connection_pool.py:248-252 | without a limit no acquire is refused; with one, iff no session is reusable and the sessions not failed have reached it |
| `PoolRuns.TotalsCountEvents` | src/pytvt/connection_pool.py:280 | the three totals are the numbers of insertions, failed connects and counted reconnects of the run |
| `PoolRuns.HeldFromHandout` | src/pytvt/connection_pool.py:240-305 | a session handed out is held until its holder gives it back or removes it |
| `PoolRuns.SessionsAreConserved` | src/pytvt/connection_pool.py:255-305 | in every reachable state total_connects = pooled sessions + logouts, no session is logged out twice, and a pooled one never was |
| `PoolRuns.ClosesExactly` | src/pytvt/connection_pool.py:402-425 | per step, a known session is logged out once if it is pooled under a key the step closes, and otherwise not at all |
| `PoolRuns.ShutdownLeavesOnlyArrivals` | src/pytvt/connection_pool.py:476-485 | after `close()` the pool is empty, and a session that was ever connected is open iff some acquire is between connection and insertion |
| `PoolRuns.HandoutIsExclusive` | src/pytvt/connection_pool.py:240-282 | if callers release and remove only what they hold, every session handed out is held by nobody else, pooled, not failed and never logged out |
| `PoolRuns.HeldSessionsAreSafeFromEviction` | src/pytvt/connection_pool.py:402-414 | under the same discipline no session has two holders, and eviction never logs out a held one |
| `PoolRuns.ClosedUnderItsHolder` | src/pytvt/connection_pool.py:275-278 | exactly which steps log out a held session: an insertion or reconnection for its key, shutdown, and its holder's own removal |
| `PoolRuns.FailedIsNeverHandedOut` | src/pytvt/connection_pool.py:374-375 | once marked failed, a session is never handed out again in any continuation of the run |
| `PoolLimits.CapacityHolds` | src/pytvt/connection_pool.py:248-280 | with at most `limit` acquires between check and insertion, counted sessions + pending insertions stay within max_active_sessions + limit - 1 along every run |
| `PoolLimits.CapacityFromStart` | src/pytvt/connection_pool.py:248-280 | the same from the empty pool, and the documented cap on counted sessions when `limit` is 1 |
| `PoolLimits.CapacityIsTight` | src/pytvt/connection_pool.py:248-280 | for every maximum and every `limit` some run reaches the bound: with two concurrent acquires the cap is no hard limit |
| `PoolLimits.SecondAcquireClosesTheFirst` | src/pytvt/connection_pool.py:241-278 | an acquire for a key in use connects again and logs the first session out under its holder |
| `PoolLimits.OpenSessionsBound` | src/pytvt/connection_pool.py:451-452 | with one acquire at a time, open sessions exceed the maximum by at most the number of sessions marked failed |
| `PoolLimits.OpenSessionsCanExceedTheMaximum` | src/pytvt/connection_pool.py:358-381 | for every positive maximum, every number of attempts and every excess k, some run with one acquire at a time ends with maximum + k open sessions: the maximum bounds open sessions for no configuration |
| `PlateStream.RuntimePlateEventStream.Poll` | src/pytvt/runtime_client.py:391-424 | one poll with any exchange outcome: error, malformed, replaced or accepted reply, and the exact new proxy state |
| `PlateStream.RuntimePlateEventStream.Get` | src/pytvt/runtime_client.py:345-349 | an event or the reason there is none; an acknowledged stream returns it only with its sequence pending, and reports empty only when nothing is pending or uncertain |
| `PlateStream.RuntimePlateEventStream.Drain` | src/pytvt/runtime_client.py:354-360 | never more than the clamped limit, one poll at most, and none for a non-positive limit |
| `PlateStream.RuntimePlateEventStream.Ack` | src/pytvt/runtime_client.py:365-389 | refusals in the order of the checks; only a confirmed acknowledgement clears the pending sequence |
| `PlateStream.RuntimePlateEventStream.Close` | src/pytvt/runtime_client.py:426-449 | exactly when stop is sent, and when the proxy counts as closed |
| `PlateStream.PollReturnsTheReply` | src/pytvt/runtime_client.py:391-424 | in both modes a poll returns the events of the reply, all and in order, iff the reply answers it and replaces no pending delivery; and the exact state afterwards |
| `PlateStream.AckNeedsItsSequence` | src/pytvt/runtime_client.py:1323-1329 | an acknowledgement is confirmed iff the reply names the pending sequence |
| `PlateStream.CloseStopsUnlessPending` | src/pytvt/runtime_client.py:426-449 | stop is sent unless the proxy is closed or would abandon a delivery it was not told to discard; always by an unacknowledged stream |
| `PlainDelivery.EveryAnswerIsReturned` | src/pytvt/runtime_client.py:345-449 | in every run of an unacknowledged stream the consumer gets exactly the events of the replies that answered its polls; every close sends stop until one is answered, which closes the stream |
| `DeliveryRuns.DeliveredAtLeastOnceInOrder` | src/pytvt/runtime_client.py:365-424 | in every run with lost requests, lost or malformed replies and re-attachments, the runtime is past a sequence only if a poll returned it and the consumer called `ack` for it; sequences are returned in issue order, a repeated one with the same event |
| `DeliveryRuns.OneDelivery` | src/pytvt/runtime_client.py:365-424 | when no exchange fails, a poll and an ack deliver the next event and leave both sides settled |
| `DeliveryRuns.PendingIsPinned` | src/pytvt/runtime_client.py:419-423 | until an acknowledgement is confirmed the consumer is given no other sequence than the pending one |
| `DeliveryRuns.PlainCloseDiscardsIff` | src/pytvt/runtime_client.py:426-449 | for every policy and every caller: a plain close abandons a retained delivery iff its proxy has not polled since it was attached, or not since it heard a repeated ack confirmed over another delivery |
| `DeliveryRuns.PlainCloseDiscardsIffUnpolled` | src/pytvt/runtime_client.py:426-449 | so only the first case remains for a runtime that confirms repeats only while idle, or a caller that retries an unconfirmed ack before polling |
| `DeliveryRuns.FirstProxyNeverDiscards` | src/pytvt/runtime_client.py:426-449 | so the proxy that opened the stream never abandons a delivered event without being told to |
| `DeliveryRuns.ImpatientCloseLosesAnEvent` | src/pytvt/runtime_client.py:387-389 | if the runtime confirms repeats at any time and the caller polls before retrying an unconfirmed ack, a plain close abandons an event no consumer saw |
| `DeliveryRuns.UnconfirmedAckIsReachable` | src/pytvt/runtime_client.py:379-389 | such a state is reached by one delivery whose ack reply is lost |
| `DeliveryRuns.StepKeepsGuardedIff` | src/pytvt/runtime_client.py:387-389 | a step makes the proxy believe that nothing is retained when something is iff it confirms a repeated ack over another retained delivery |
| `DeliveryRecovery.RecoversIff` | src/pytvt/runtime_client.py:365-424 | after any faults, an open proxy of a live stream can get back to rest without re-attaching iff it is not blocked; then fault-free retries do it, and all that was issued was returned and acknowledged |
| `DeliveryRecovery.BlockedForGood` | src/pytvt/runtime_client.py:420-421 | in any continuation without re-attaching, a blocked proxy never comes to rest and returns nothing more |
| `DeliveryRecovery.PatienceNeverBlocks` | src/pytvt/runtime_client.py:365-389 | a caller that retries an unconfirmed ack before polling is never blocked, for sequences in the accepted range |
| `DeliveryRecovery.ReattachingUnblocks` | src/pytvt/runtime_client.py:312-330 | a re-attached proxy is blocked by nothing but a sequence out of range, and otherwise recovers |
| `DeliveryRecovery.ImpatienceBlocks` | src/pytvt/runtime_client.py:420-421 | a run of one lost ack reply and an early poll blocks the proxy of a runtime that confirms repeats only while idle |
| `ResponseReader.Receive` | src/pytvt/runtime_client.py:1122-1139 | for every chunking: the line through the first newline iff that newline is among the first 34 MiB + 1 bytes, the exact error otherwise, a bounded buffer, and no request for zero bytes |
| `ResponseReader.MeaningIsUnique` | src/pytvt/runtime_client.py:1124-1136 | a byte stream has exactly one such result, so chunk boundaries cannot matter |
| `CallbackSlot.SdkProcess.NewClient` | src/pytvt/device_sdk/client.py:2712-2736 | a client is created iff the slot has no owner and the library initializes; otherwise nothing changes |
| `CallbackSlot.SdkProcess.InstallCallback` | src/pytvt/device_sdk/client.py:2894-2933 | installation succeeds iff nobody owns the slot, no thunk is retained, the client is the only live one and the library accepts |
| `CallbackSlot.SdkProcess.StartClearing` | src/pytvt/device_sdk/client.py:2867-2875 | who may clear, and the state in which callbacks are drained |
| `CallbackSlot.SdkProcess.FinishClearing` | src/pytvt/device_sdk/client.py:2876-2893 | the thunk is dropped and the ownership given up only if nothing is in flight any more |
| `CallbackSlot.SdkProcess.StartCleanup` | src/pytvt/device_sdk/client.py:2758-2761 | cleanup gives up the library handle and the native slot |
| `CallbackSlot.SdkProcess.FinishCleanup` | src/pytvt/device_sdk/client.py:2762-2778 | the thunk is kept while callbacks are in flight; the client is no longer live nor owner |
| `CallbackSlot.StepIsSoundIffGuarded` | src/pytvt/device_sdk/client.py:2844-2933 | a step keeps ownership and lifetime sound iff a reservation in it is made by the one live client |
| `CallbackSlot.ThunksAreRetained` | src/pytvt/device_sdk/client.py:2844-2933 | in every run, whoever reserves and when: the callback the library would call has its thunk retained, none in flight runs in a dropped thunk, and the slot is clear during every drain |
| `CallbackSlot.SlotIsSafe` | src/pytvt/device_sdk/client.py:2894-2933 | in every guarded run an owner is the only live client and an installed callback is its own |
| `CallbackSlot.OnlyTheOwnerCleansUp` | src/pytvt/device_sdk/client.py:2758-2761 | in guarded runs nobody but the owner can clean up the library that all share |
| `CallbackSlot.ThunkIsDroppedOnlyWhenQuiet` | src/pytvt/device_sdk/client.py:2886-2892 | after every run, a step that drops a thunk finds the native slot elsewhere and no callback in flight, and is a clear or a cleanup of that client |
| `CallbackSlot.InstallReplacesNothing` | src/pytvt/device_sdk/client.py:2894-2897 | a callback is installed only where no thunk is retained, the slot points elsewhere and none is inside |
| `CallbackSlot.EndOfDrain` | src/pytvt/device_sdk/client.py:2876-2892 | the end of a drain drops thunk and ownership iff nothing is in flight, and otherwise keeps both |
| `CallbackSlot.ClosingMeansClearing` | src/pytvt/device_sdk/client.py:2870-2890 | in every run callbacks are turned away exactly while their client waits in a clear |
| `CallbackSlot.QuietEndFreesTheSlot` | src/pytvt/device_sdk/client.py:2889-2892 | a clear or cleanup by the owner, with nothing in flight, frees the slot for any new client |
| `CallbackSlot.ReservingInOneStepIsGuarded` | src/pytvt/device_sdk/client.py:1597-1609 | clearing and reserving in one locked section always satisfies the guard, whatever callbacks do meanwhile |
| `CallbackSlot.SeparateReservationAdmitsASecondClient` | src/pytvt/device_sdk/client.py:1597-1609 | the two separate locked sections of the code do not: a run ends with an owner and two live clients, of which the other can clean up |
| `CallbackSlot.StaleReservationTakesTheSlot` | src/pytvt/device_sdk/client.py:1607-1609 | a stale closer takes the ownership from a client whose callback is installed, which then cannot clear it |
| `CallbackSlot.OwnerCanBeFreedIff` | src/pytvt/device_sdk/client.py:2867-2893 | unless another client takes the ownership over, an owned slot can become free again iff its owner still has its library handle |
| `CallbackSlot.OrphanedForever` | src/pytvt/device_sdk/client.py:2713-2716 | otherwise no client, live or new, can be created, install or clear a callback, in any such continuation |
| `CallbackSlot.RetryLocksOutALiveClient` | src/pytvt/device_sdk/client.py:1602-1610 | a close retried after its client was cleaned up locks out a live client that still has its handle |
| `CallbackSlot.SomebodyFreesIff` | src/pytvt/device_sdk/client.py:1607-1609 | with no restriction on who reserves, the slot can become free again iff some client has a handle |
| `CallbackSlot.DeadOwnerIsForever` | src/pytvt/device_sdk/client.py:2713-2716 | when no client has a library handle, an owned slot blocks every later client, in every continuation |
| `CallbackSlot.ReservationAfterCleanupMakesADeadOwner` | src/pytvt/device_sdk/client.py:1602-1610 | a close that is retried after its client was cleaned up makes such an owner |
| `Subscriptions.PlateSubscriptions.RunCloser` | src/pytvt/device_sdk/client.py:1574-1614 | the closer keeps, in registration order, exactly the tokens whose unsubscribe failed, and has unsubscribed exactly the others |
| `Subscriptions.PlateSubscriptions.Close` | src/pytvt/device_sdk/plate_events.py:961-983 | the stream is closed iff its closer returned normally, and can be closed again otherwise; a close under way is not repeated |
| `Subscriptions.PlateSubscriptions.Register` | src/pytvt/device_sdk/client.py:1624-1654 | registers up to the first refusal or passed deadline; the token list is exactly what the library granted |
| `Subscriptions.PlateSubscriptions.SetUp` | src/pytvt/device_sdk/client.py:1616-1664 | all targets registered, or the granted ones undone as far as the library let; which error says which |
| `Subscriptions.PlateSubscriptions.Subscribe` | src/pytvt/device_sdk/client.py:1549-1664 | the whole call, with argument errors, over the product of the deduplicated commands and channels |
| `Subscriptions.Deduplicate` | src/pytvt/device_sdk/client.py:1549-1552 | every item once, in order of first occurrence |
| `Subscriptions.FirstsSize` | src/pytvt/device_sdk/client.py:1549-1550 | as many as there are different items |
| `Subscriptions.FirstsOfDistinct` | src/pytvt/device_sdk/client.py:1549-1552 | a list without repetitions is registered as given |
| `Subscriptions.ProductIsComplete` | src/pytvt/device_sdk/client.py:1626-1627 | the targets are every command with every channel, without repetition |
| `Subscriptions.TargetsAreTheProduct` | src/pytvt/device_sdk/client.py:1549-1552 | also for lists with repetitions |
| `Subscriptions.RoundConserves` | src/pytvt/device_sdk/client.py:1577-1595 | each round splits the tokens into unsubscribed and kept ones |
| `Subscriptions.RefusedIsExact` | src/pytvt/device_sdk/client.py:1588-1595 | a token is kept iff its unsubscribe failed |
| `Subscriptions.NothingIsUnsubscribedTwice` | src/pytvt/device_sdk/client.py:1577-1595 | over any number of close attempts no registration is successfully unsubscribed twice, and one has left the list iff it was |
| `EventQueue.PlateEventStream.Enqueue` | src/pytvt/device_sdk/plate_events.py:860-892 | exactly when an event is refused or accepted, what may be evicted whatever readers do meanwhile, and the exact new state when no reader comes between |
| `EventQueue.RoomIsWastedIff` | src/pytvt/device_sdk/plate_events.py:872-886 | though the queue has room for an event, older ones are evicted for it iff some are queued and the bytes that readers took and have not recorded bring the sum over the limit |
| `EventQueue.EverythingIsEvictedIff` | src/pytvt/device_sdk/plate_events.py:876-886 | and all of them iff the newest would not fit beside the bytes in hand either |
| `EventQueue.RoomIsWasted` | src/pytvt/device_sdk/plate_events.py:872-886 | such a state: nine bytes in hand, one queued, a limit of ten, an event of one byte |
| `EventQueue.PlateEventStream.MakeRoom` | src/pytvt/device_sdk/plate_events.py:876-891 | the eviction loop ends with room for the event, whatever readers take between its steps, evicts nothing when the counters had room, and undisturbed is the pure loop of the laws above |
| `EventQueue.PlateEventStream.Evict` | src/pytvt/device_sdk/plate_events.py:876-886 | the oldest event leaves; the branch that finds the close signal there is unreachable |
| `EventQueue.PlateEventStream.Take` | src/pytvt/device_sdk/plate_events.py:911-912 | a reader takes the front item without the stream's lock; all invariants survive |
| `EventQueue.PlateEventStream.RecordDequeue` | src/pytvt/device_sdk/plate_events.py:894-900 | the byte counter stays exact, its clipping at zero never acts, and the reader that emptied a closed queue leaves the signal |
| `EventQueue.PlateEventStream.RequeueCloseSignal` | src/pytvt/device_sdk/plate_events.py:926-933 | there is always room to put the signal back |
| `EventQueue.PlateEventStream.BeginClose` | src/pytvt/device_sdk/plate_events.py:962-968 | one close at a time, and none after a successful one |
| `EventQueue.PlateEventStream.EndClose` | src/pytvt/device_sdk/plate_events.py:969-983 | the end of a close, with the signal queued iff there is room |
| `EventQueue.PlateEventStream.Stats` | src/pytvt/device_sdk/plate_events.py:946-957 | the reported counts are the queued events, and the bytes queued or in readers' hands |
| `EventQueue.SignalAwaits` | src/pytvt/device_sdk/plate_events.py:926-983 | once the events of a closed stream are read, the signal is in the queue, so no blocked reader waits forever |
| `EventQueue.EvictingIsCoherent` | src/pytvt/device_sdk/plate_events.py:881-886 | in an open stream the front of the queue is an event |
| `EventQueue.EachEventHasOneFate` | src/pytvt/device_sdk/plate_events.py:860-916 | every accepted event is queued, taken or evicted, exactly one of them, once; readers get events in the order of acceptance |
| `EventQueue.ReplayIsSound` | src/pytvt/device_sdk/plate_events.py:860-916 | the same for every sequence of callbacks, readers and evictions, with evictions always of the oldest |
| `XmlAttributes.ScanPrinted` | src/pytvt/device_sdk/client.py:548-549 | printed attributes are scanned back, all and in order |
| `XmlAttributes.FindsFirst` | src/pytvt/device_sdk/client.py:570-573 | the first printed tag is found with exactly its attribute text |
| `XmlAttributes.SkipsOther` | src/pytvt/device_sdk/client.py:570-573 | a printed tag of another name is skipped |
| `XmlAttributes.ScanSkips` | src/pytvt/device_sdk/client.py:548-549 | whatever stands between attributes is skipped |
| `XmlAttributes.LongerNameIsAnotherTag` | src/pytvt/device_sdk/client.py:572 | a tag whose name goes on is another tag |
| `XmlAttributes.IntRoundTrip` | src/pytvt/device_sdk/client.py:1827-1833 | printed integers parse back |
| `EncodeUpdate.StreamRoundTrip` | src/pytvt/device_sdk/client.py:1823-1836 | a printed profile parses back to itself, also where empty attributes are left out |
| `EncodeUpdate.MainRoundTrip` | src/pytvt/device_sdk/client.py:2151-2156 | codec and group lengths parse back, with zero lengths left out |
| `EncodeUpdate.PrintedFields` | src/pytvt/device_sdk/client.py:2146-2149 | the text of a printed profile, attribute by attribute |
| `EncodeUpdate.NonEmptyConcat` | src/pytvt/device_sdk/client.py:2148 | exactly the attributes with an empty value are left out |
| `EncodeUpdate.MissingProfileFields` | src/pytvt/device_sdk/client.py:2122-2130 | what a missing profile is written as |
| `EncodeUpdate.WrittenItem` | src/pytvt/device_sdk/client.py:2151-2159 | the written item: both profiles, then the codec and the group lengths that are not zero |
| `EncodeUpdate.ReadDefaults` | src/pytvt/device_sdk/client.py:1823-1836 | what absent attributes are read as, and which texts mean sound |
| `EncodeUpdate.ApplyIsFieldByField` | src/pytvt/device_sdk/client.py:2131-2141 | a request gives each requested field its value and leaves every other |
| `EncodeUpdate.ShowsIffApplied` | src/pytvt/device_sdk/client.py:3351 | a profile shows a request iff applying the request would not change it |
| `EncodeUpdate.WriteMeansPatch` | src/pytvt/device_sdk/client.py:2121-2159 | the printed pair of profiles parses back to the read with only the requested fields changed, for values without quotes, slashes and angle brackets |
| `EncodeUpdate.SlashHidesTheTag` | src/pytvt/device_sdk/client.py:570-573 | the restriction is needed: a slash in a value makes the whole tag unreadable |
| `EncodeUpdate.OtherProfileIsKeptIffPresent` | src/pytvt/device_sdk/client.py:2121-2144 | the profile the caller did not touch is written back as it was iff it exists; a missing one is written as a default |
| `EncodeUpdate.SetNodeEncode` | src/pytvt/device_sdk/client.py:2089-2169 | one write at most, made from a second read of the channel |
| `EncodeUpdate.UpdateVerified` | src/pytvt/device_sdk/client.py:3273-3366 | every outcome exactly: each error, conflict without a write iff profile or codec is not the expected one, unconfirmed write, updated only if a fresh session shows the requested values and codec, mismatch only if it shows others, verification unavailable |
| `EncodeUpdate.GuardedWriteMeansPatch` | src/pytvt/device_sdk/client.py:3321-3337 | with reads stable within the session and both profiles present, the write means the guarded baseline with only the requested changes, which a device that obeys then shows |
| `Packets.RecvExact` | src/pytvt/protocol.py:208-216 | exactly the next n bytes for any chunks, or the connection closed too early |
| `Packets.RecvPacket` | src/pytvt/protocol.py:219-276 | the first packet of the unread bytes and exactly its length, for any chunks |
| `Packets.HeaderFields` | src/pytvt/protocol.py:42-57 | where a receiver finds the fields that the header was made from |
| `Packets.HeaderLayout` | src/pytvt/protocol.py:42-57 | the header on the wire, field by field |
| `Packets.LeastByteFirst` | src/pytvt/protocol.py:49-56 | words are little-endian |
| `Packets.PayloadIsAPrefix` | src/pytvt/protocol.py:250-254 | the payload is what follows the 16 bytes, up to the stated length or the end |
| `Packets.StrayBytes` | src/pytvt/protocol.py:269-276 | what an unknown flag and a packet too short for a command are read as |
| `Packets.InitIsReadWhole` | src/pytvt/protocol.py:240-243 | an init packet is its 64 bytes, flag included |
| `Packets.InitLayout` | src/pytvt/protocol.py:104-130 | which bytes of an init packet hold which field, in the documented layout |
| `Packets.FrameParses` | src/pytvt/protocol.py:42-57 | a sent "1111" command or keepalive is read as itself, whatever follows |
| `Packets.HeadFrameParsesIff` | src/pytvt/protocol.py:229-255 | a "head" command of total length L is read as itself iff 0x10 < L <= 0x1000 or L >= 0x10000000 |
| `Packets.ReceiveAll` | src/pytvt/protocol.py:219-276 | for every list of commands and keepalives and every chunking, repeated receives return exactly those and leave exactly the following bytes |
| `Packets.ParseInit` | src/pytvt/protocol.py:104-130 | which packets parse, how key and nonce overlap, and that a nonce is below 2^24 |
| `Packets.Pack` | src/pytvt/protocol.py:49-56 | four little-endian bytes that unpack to the number |
| `LoginCiphers.EightDigitsExactly` | src/pytvt/protocol.py:158-168 | the padded nonce has exactly eight digits iff it is below 10^8, and reads as the nonce |
| `LoginCiphers.HashedTextWidth` | src/pytvt/protocol.py:127-129 | every nonce of an init packet makes a hashed text of 40 characters |
| `LoginCiphers.KeyIsTheNumber` | src/pytvt/protocol.py:178 | the key is the nonce in decimal without a leading zero |
| `LoginCiphers.PasswordBytes` | src/pytvt/protocol.py:140-155 | each byte sent is the padded password byte, combined with its key byte exactly in modes 1 and 2 |
| `LoginCiphers.MaskInPlace` | src/pytvt/protocol.py:181-183 | the in-place pass masks every non-zero byte with its key byte |
| `LoginCiphers.EncryptUsername` | src/pytvt/protocol.py:171-184 | the padded or cut username, masked with the decimal nonce |
| `LoginCiphers.TwiceIsIdentityIff` | src/pytvt/protocol.py:181-183 | masking twice gives the buffer back iff no non-zero byte equals its key byte |
| `LoginCiphers.PlainNameComesBack` | src/pytvt/protocol.py:171-184 | names of at most 64 bytes without digits and zeros always come back |
| `LoginCiphers.UsernamesStayApart` | src/pytvt/protocol.py:171-184 | so no two of them are encrypted alike |
| `LoginCiphers.CollideIff` | src/pytvt/protocol.py:181-183 | two buffers encrypt alike iff at each position they agree or one has a zero byte where the other has the key byte |
| `LoginCiphers.DigitIsLost` | src/pytvt/protocol.py:182-183 | so a name whose first byte is the nonce's first digit encrypts like one with a zero byte there |
| `LoginCiphers.PasswordTwice` | src/pytvt/protocol.py:133-155 | the 32-byte password pass is its own inverse in every mode |
| `LogAnalysis.NextLine` | src/pytvt/maintenance.py:239-249 | the next line whole, or skipped to its end iff it is longer than 16384 bytes, unless the deadline passes in between |
| `LogAnalysis.AttributeTime` | src/pytvt/maintenance.py:250-258 | the cached time stamp always gives what parsing the stamp again would |
| `LogAnalysis.CountHits` | src/pytvt/maintenance.py:263-283 | the counter grows by exactly the hits of the line |
| `LogAnalysis.Widen` | src/pytvt/maintenance.py:261-262 | the interval of a service spans exactly its records |
| `LogAnalysis.LatestOf` | src/pytvt/maintenance.py:284-286 | the license value is the last scanned one among those with the greatest time |
| `LogAnalysis.AnalyzeMember` | src/pytvt/maintenance.py:232-286 | one member: with a look at the clock before each line, the streaming loop reports what the batch description of its lines says, or stops at the first look that finds the deadline passed |
| `LogAnalysis.AnalyzeArchive` | src/pytvt/maintenance.py:208-286 | the whole pass refines the batch description, with its limits, its counts of files and skipped lines, and the deadline error iff a look at the clock, at least one a line, finds the deadline passed |
| `LogAnalysis.TallyIsUnique` | src/pytvt/maintenance.py:213-217 | the batch description determines the report |
| `LogAnalysis.CountedServicesAreCovered` | src/pytvt/maintenance.py:287-299 | every counted service has an interval with start <= lo <= hi <= end |
| `LogMeaning.LinesOfStream` | src/pytvt/maintenance.py:239-249 | the lines of a stream are its texts up to each newline, those of more than 16384 bytes dropped whole |
| `LogMeaning.ContainsIff` | src/pytvt/maintenance.py:274 | a needle is found exactly in the lines that are something, the needle, something |
| `LogMeaning.LineAdds` | src/pytvt/maintenance.py:263-283 | a line adds to a key one per needle of that key in it, named by user for a missing authority and by service otherwise, and one unclassified error iff it has a level and no needle |
| `LogMeaning.RecordAdds` | src/pytvt/maintenance.py:280-283 | and so to the counts of all records |
| `LogMeaning.TimeIsOfLastStamp` | src/pytvt/maintenance.py:250-258 | a line has the time of the last stamp up to it if no line was dropped since |
| `LogMeaning.NoStampNoTime` | src/pytvt/maintenance.py:248-260 | and otherwise none |
| `LogMeaning.LineIsRecordedIff` | src/pytvt/maintenance.py:259-260 | a kept line counts iff its time is in the window, ends included |
| `LogMeaning.OneLineLog` | src/pytvt/maintenance.py:236-286 | from a file of one stamped line to the counter |
| `LogMeaning.RecordsAdd` | src/pytvt/maintenance.py:224-231 | the records of an archive are those of its members in order |
| `LogMeaning.MembersAdd` | src/pytvt/maintenance.py:221-231 | sizes, file counts and dropped lines add up over the members |
| `LogMeaning.OneMember` | src/pytvt/maintenance.py:221-231 | every member counts with its size, and only service logs are read |
| `LogMeaning.DroppedIsTheCount` | src/pytvt/maintenance.py:242-243 | the skipped lines are counted one by one |
| `LogMeaning.ScannedLicenseWinsIff` | src/pytvt/maintenance.py:284-286 | a value scanned last is reported iff none is later |
| `LogMeaning.LicenseOtherwise` | src/pytvt/maintenance.py:284-286 | lines without a value change nothing |
| `ByteRanges.DifferingRanges` | research/backup_crypto_probe.py:38-54 | sorted, disjoint, non-empty ranges that cover exactly the differing offsets, touch only at the end of the shorter input, and have the reported byte count in sum |
| `ByteRanges.MergeRanges` | research/backup_crypto_probe.py:57-64 | the loop that rewrites its last range computes the recursive merge |
| `ByteRanges.MergedGaps` | research/backup_crypto_probe.py:60-63 | any two neighbours of the result are more than the gap apart |
| `ByteRanges.MergedKeepsCoverage` | research/backup_crypto_probe.py:57-64 | on sorted disjoint ranges merging adds exactly the holes of at most the gap |
| `ByteRanges.MergesCompose` | research/backup_crypto_probe.py:57-64 | merging by g1 then g2 is merging once by the larger, for every list of ranges; hence idempotence |
| `AlarmListener.AlarmServer.Start` | src/pytvt/alarm_server.py:100-109 | only one start |
| `AlarmListener.AlarmServer.TryAcquire` | src/pytvt/alarm_server.py:123 | a slot is taken iff one is free |
| `AlarmListener.AlarmServer.Release` | src/pytvt/alarm_server.py:198 | a bounded semaphore takes a slot back |
| `AlarmListener.AlarmServer.Publish` | src/pytvt/alarm_server.py:135-143 | a thread is registered iff it was started |
| `AlarmListener.AlarmServer.Discard` | src/pytvt/alarm_server.py:196-197 | a handler leaves the thread set |
| `AlarmListener.AlarmServer.StopAccepting` | src/pytvt/alarm_server.py:150-159 | the part of `close` before it joins, with the set of threads it will wait for |
| `AlarmListener.SlotsAreConserved` | src/pytvt/alarm_server.py:111-198 | in every interleaving of accepts, failed thread starts, handler exits and close, free slots + outstanding acquisitions = max_connections, each acquisition is given back at most once, and close waits only for started threads |
| `AlarmListener.ReleaseNeverOverflows` | src/pytvt/alarm_server.py:145-198 | a due release is always accepted by the bounded semaphore |
| `AlarmListener.IdleServerHasAllSlots` | src/pytvt/alarm_server.py:193-198 | once nothing is outstanding all slots are free |
| `AlarmListener.LoopCrashesIff` | src/pytvt/alarm_server.py:116-122 | in every interleaving the accept loop fails on the missing socket iff it makes a call to accept after close emptied the socket field |
| `AlarmListener.CloseIsDangerousIff` | src/pytvt/alarm_server.py:116-122 | the first emptying of the field leads to this iff the loop then stood between its check and its call, and the call is made |
| `AlarmListener.CrashOnlyAfterClose` | src/pytvt/alarm_server.py:150-157 | so never without a close |
| `AlarmListener.CrashIsReachable` | src/pytvt/alarm_server.py:153-157 | and such a run exists: the field is emptied between a passed check of the stop flag and the call |
| `AlarmListener.ReadConnection` | src/pytvt/alarm_server.py:171-183 | a prefix of what the peer sent, of at most _MAX_CONN_BYTES - 1 + 4096 bytes, and less than that and than all of it only if the last receive timed out |
| `ScanDiff.CompareFields` | src/pytvt/diff.py:315-322 | the comparison loop computes the list of changes |
| `ScanDiff.ChangesLaws` | src/pytvt/diff.py:245-249 | applying the changes to the old fields gives the new ones; none iff the fields agree; comparing the other way round flips each |
| `ScanDiff.CamerasByChannel` | src/pytvt/diff.py:305-312 | the dictionary of addressed cameras by channel |
| `ScanDiff.LastCameraWins` | src/pytvt/diff.py:308-311 | of several cameras with one channel, the last is compared |
| `ScanDiff.ChangedCameras` | src/pytvt/diff.py:289-300 | exactly the common channels whose fields changed, in report order, each with its changes |
| `ScanDiff.DiffCameras` | src/pytvt/diff.py:269-302 | exactly the channels that came, went and changed, each list once and ascending |
| `ScanDiff.DiffDevice` | src/pytvt/diff.py:241-266 | a device counts as changed iff it and its cameras do not agree |
| `ScanDiff.LastDeviceWins` | src/pytvt/diff.py:186-187 | of several devices with one address, the last is compared |
| `ScanDiff.DevicesByIp` | src/pytvt/diff.py:186-187 | the dictionary of devices by address |
| `ScanDiff.ChangedDevices` | src/pytvt/diff.py:199-207 | the changed devices in report order, and the count of the others |
| `ScanDiff.DiffScans` | src/pytvt/diff.py:174-218 | the whole report, against its declarative description |
| `ScanDiff.AddressesAreCounted` | src/pytvt/diff.py:189-207 | added + changed + unchanged = distinct new addresses, removed + changed + unchanged = distinct old ones |
| `ScanDiff.ChangesRebuildTheDevice` | src/pytvt/diff.py:241-302 | applying a device's changes gives the new device on every compared field, cameras as printed, and the new set of channels |
| `ScanDiff.DeviceDiffFlips` | src/pytvt/diff.py:241-302 | comparing the other way round gives the same device report, turned round |
| `ScanDiff.ScanDiffFlips` | src/pytvt/diff.py:174-218 | swapping the scans swaps added with removed and flips every change, list by list |
| `ScanDiff.CopiesAgreeIffPlaced` | src/pytvt/diff.py:309-311 | two readings of one device agree iff every addressed camera has a channel |
| `ScanDiff.CopyReportsNothingIffPlaced` | src/pytvt/diff.py:174-218 | two equal scans report nothing iff this holds for every device |
| `ScanMeaning.LikeValuesAgreeIffEqual` | src/pytvt/diff.py:320 | texts, numbers and truth values agree with their like iff they are equal, for devices and cameras |
| `ScanMeaning.ModesDiffer` | src/pytvt/diff.py:248 | unlike values agree as printed iff they print alike, and as values only a truth value with one or zero |
| `ScanMeaning.Eighty` | src/pytvt/diff.py:320 | the number 80 and the text agree for cameras only, true and 1 for devices only |
| `ScanMeaning.FieldListedIff` | src/pytvt/diff.py:315-322 | a change is listed with both values iff they do not agree |
| `ScanMeaning.CameraTextIsReported` | src/pytvt/diff.py:174-322 | in every report, a camera text that changed is listed under its address and channel with both texts |
| `ScanMeaning.DeviceTextIsReported` | src/pytvt/diff.py:174-249 | and a device text under its address |
| `ScanMeaning.EqualTextsAreNotReported` | src/pytvt/diff.py:174-322 | nothing is listed of equal texts |
| `ScanMeaning.AddressedIff` | src/pytvt/models.py:196-198 | a camera is addressed iff its address has a character that is not blank |
| `ScanMeaning.BlankIs` | src/pytvt/models.py:198 | the blank characters of ASCII |
| `ScanMeaning.BeforeIff` | src/pytvt/diff.py:189-191 | texts are listed as in a dictionary |
| `ScanMeaning.TextChannelsComeLast` | src/pytvt/diff.py:325-329 | integer channels come before text channels, and these as their texts |
| `ScanDiff.RangeAscendsIff` | src/pytvt/diff.py:325-329 | for channels of a range that includes zero, every report list is in numeric order iff the range starts at -1 or later and ends before 10^10 |
| `ScanDiff.CameraListsAscend` | src/pytvt/diff.py:325-329 | in any list, also one with text channels, integer channels from -1 to 10^10 - 1 stand in numeric order |
| `SortKeys.NumericIff` | src/pytvt/diff.py:325-329 | the sort texts of such a range are ordered like the numbers iff it starts at -1 or later and ends before 10^10 |
| `SortKeys.ChannelOrder` | src/pytvt/diff.py:325-329 | padded texts of up to ten digits are ordered like the numbers |
| `SortKeys.NegativesMisorder` | src/pytvt/diff.py:325-329 | -1 is listed before -2 |
| `SortKeys.ZeroFillIsInjective` | src/pytvt/diff.py:325-329 | and no two integers, of any sign or size, have the same sort text |
| `SortKeys.LongerComesFirst` | src/pytvt/diff.py:325-329 | for every width of at least ten digits, the first longer number is listed before the last number of that width |
| `SortKeys.WideChannelsMisorder` | src/pytvt/diff.py:325-329 | 10^10 is listed before 10^10 - 1 |
| `SortKeys.SortBy` | src/pytvt/diff.py:189-197 | the members of a set, each once, ascending by key |
| `SortKeys.SortedListIsUnique` | src/pytvt/diff.py:189-197 | with distinct keys there is one such list, so the reports are determined by the scans |

## Left out

- `connect_many`, pool metrics other than the failure count and the last-seen time, and `stats`.
- The attempt loop and back-off of `reconnect`: its locked sections are steps that may happen at any time and in any order.
- `_resolve_method` and `_make_key`: a pool key is any text.
- The clock: each look at a deadline, in the log analysis and in the registration of subscriptions, is a parameter that says whether it has passed; the time limits of socket calls are failed or stalled exchanges; the pool's clock readings are parameters.
- Fields of a plate event, of its statistics, and of subscriptions in runtime replies: an event parses or it does not.
- The asynchronous runtime client, other runtime operations, and the validation of a poll's timeout argument.
- `_parse_response`, which reads the line that `Receive` returns as JSON.
- The checks of `subscribe_plate_events` before its channels are looked at (experimental flag, time limit, live handle, streams already active), and a callback that cannot be installed, after which nothing is registered.
- That `cleanup` first tries to close an active stream and to clear the callback: each is a step that may have happened, failed or not happened before it.
- Parsing of native plate payloads; the queue starts with parsed events. Statistics other than dropped and buffered counts.
- The `closing` flag inside a native callback, which only makes it return early.
- The XML around one channel's item, item ids, request status and the capability lists of a read; a read fails, lacks the channel or yields a node.
- A profile change to a value of another type, and codes of Python's `int()` beyond an optional minus sign and digits; `\w` and `\s` are taken over ASCII.
- An exception on logging out of the session that writes.
- MD5 and SHA-1: only the width and content of the text that is hashed.
- Usernames and passwords outside ASCII, which raise an encoding error, and a missing init record, which sends the password in clear.
- Header fields beyond 32 bits, which raise a packing error.
- Login and reply payload layouts, HTTP tunnelling and the response parsers of the packet protocol.
- Regular expressions, time zones and the table of search strings of the log analysis: parameters of the description.
- The order of the observations and their rendering as text.
- Parsing of an alarm frame, the callback and error reports of the listener, and a failing `Thread` constructor.
- Names, sites, hostnames and camera counts in scan reports, which are only displayed; loading and printing of scans; white space outside ASCII in addresses; values other than text, integer, truth value and none.
- Block sizes, entropy and the other statistics of the backup probe.
- Command line, discovery, registry, configuration, spreadsheets, vehicle push, alarm and status protocols, image extraction: request building or one-pass field extraction.

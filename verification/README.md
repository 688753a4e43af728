# Nearlink client framework: a verified model

This project models the parts of the Nearlink client framework that hold state or a format, and
proves properties of them over every input or every run.

- `SwitchModule` is the enable/disable scheduler: one action at a time, later requests cached, the
  cache replayed through a task queue when an action finishes, and one timeout task per action.
- `Framing` and `Channel` are data transfer: length-prefixed frames, the admission check in front of
  `send`, the byte queue of the socket pair and the two receivers.
- `PortRegistry` is uuid to port, port to callback, (port, address) to socket and file descriptor to
  worker callback, with the worker that runs while there is work.
- `Discovery` is the SSAP discovery handshake, with the remote request as a step of its own, and the
  cached service list, with the read that follows GetServices as a step of its own.
- `SaManager` is registration ids and the "started" notification.
- `Uuids`, `Parcels` and `AdvertiserData` are the uuid text form and its halves, and the service-tree
  and advertising parcels. `Bytes` holds the little-endian words they and `Framing` share.

Each state machine has a value type for its state, a step function `Apply`, runs as sequences of
steps, and a class whose methods follow the code and are proved against the step function. The lemmas
named after steps say what each step does to each field, apart from the functions it is made of.

## What the proofs found

The model follows the code where the code and its comments differ. Each of these comes with a lemma
that gives a run reaching it and with lemmas that say exactly when it happens.

- The finish step of the switch erases one event too many when the chosen cached event is not the
  first (`WrittenMeetsIntended`, `WrittenRemovesOneMore`, `RequestLostReachable`), and erases from an
  empty vector, which is undefined, when it is also the last (`FaultExact`, `UndefinedEraseReachable`).
  The comments at frameworks/native/nearlink_switch_module.cpp:247 and 290 describe `IntendedChoose`.
- A replayed action that fails hard leaves cached requests that nothing picks up (`WakeUpStep`,
  `WakeUpRun`, `WakeUpCanBeLost`).
- The service takes a record off its socket before it sends it on, and a full send queue or a failure
  loses it; a record for an unregistered port loses the rest of its batch. What was passed on is what
  was sent if and only if neither happens (`DeliveredInOrder`, `BusyLosesRecord`, `DispatchStops`,
  `BatchCutShort`).
- A port destroyed between the look-up and the store of a connection report leaves a socket behind
  (`RegisteredRun`, `OrphanReachable`).
- A reconnect without a disconnect leaves a stale worker callback (`WorkersStep`, `WorkersRun`,
  `StaleCallbackReachable`). A port destroyed inside the connection callback leaves a worker running
  with nothing to do (`WorkerStep`, `WorkerJustified`, `IdleWorkerReachable`), and a later destroy does
  not stop it unless it removes a socket (`DestroyStopsIdleWorker`, `IdleWorkerSurvivesDestroy`).
- A discovery start that fails for want of a registration or a proxy keeps its flag and blocks the
  client until a disconnect, unless another start is still under way (`StuckExact`, `FailedStartBlocks`,
  `FailedStartReachable`); the disconnect then reports a discovery nobody requested
  (`UnrequestedExact`, `UnrequestedReportReachable`).
- A disconnect that releases the flag of a start still under way lets two discoveries be in flight, and
  n of them n + 1 (`SoundExact`, `CanOverlapExact`, `InFlightBound`, `BoundReached`,
  `TwoInFlightReachable`). A discovery then ends without invalidating the cache, and the list from
  before it is served (`FreshRun`, `FreshExact`, `SoundNeverMisses`, `MissedEndServed`).
- A caller that was told the service list is ready reads it after the mutex is free: it can be handed
  an older list, an emptied one, or an older service from GetService(uuid) (`ServedExact`, `SpoilStep`,
  `OldListServed`, `ClearedListServed`, `OldServiceServed`).
- Started functions run twice when two starts arrive without a stop, and not at all when the remote
  object is missing at registration (`NotificationStep`, `RunNotifiesOnce`, `NotifiedTwiceReachable`,
  `NeverNotifiedReachable`).
- A nested list of 2^32 elements passes the truncated size check and is not read back
  (`ServiceRoundTrip`, `LongListPasses`).

Two more hold in every state. A frame over 49688 bytes is refused, although `WriteData` admits payloads
of 65535 bytes (`AcceptedWhenDrained`, `OversizedNeverSent`). A write without a socket entry reports
success (`WriteData`).

## Assumptions

- Each entry point under a mutex is one atomic step; cancelling a timeout task is atomic with the step.
- The calls and handlers of the port registry share no mutex and are taken as atomic, except that a
  connection report is three steps.
- The kernel queue takes a whole buffer or nothing, size queries succeed, the send buffer is 51200
  bytes, and a read returns what is queued up to its buffer size.
- `size_t` has 8 bytes, little-endian. `memcpy_s` refuses a destination size of zero or over 2 GB.
- The service hands out port numbers and file descriptors that are not in use.
- The service ends a discovery it accepted at most once, and tells the client of no other.
- Results of switch actions, remote calls, proxies and lookups are inputs of the steps.
- Parcel writes do not run out of memory, and `WriteParcelable` puts a non-null mark before its object.

## Model

| member | source | states |
|---|---|---|
| SwitchModule.RunKeepsInv | frameworks/native/nearlink_switch_module.cpp:94-140 | over every run: requests made = actions started + cached + queued replays + dropped, as multisets of event kinds; the armed timers are exactly the remembered one while processing |
| SwitchModule.StepKeepsInv | frameworks/native/nearlink_switch_module.cpp:62-140 | each call, replay and timeout keeps that invariant |
| SwitchModule.TimerArmedWhileProcessing | frameworks/native/nearlink_switch_module.cpp:113-129 | in every reachable state a timeout task is armed if and only if an action is processed, and never two |
| SwitchModule.ActionsNeverExceedRequests | frameworks/native/nearlink_switch_module.cpp:102-140 | in every run, kind by kind, no more actions are started than were requested |
| SwitchModule.DrainBound | frameworks/native/nearlink_switch_module.cpp:233-271 | once requests stop, at most cached + queued further actions are ever started |
| SwitchModule.WakeUpStep | frameworks/native/nearlink_switch_module.cpp:102-140 | an idle module with cached requests keeps a replay queued, unless the step is a hard failure of the last queued replay; if and only if |
| SwitchModule.WakeUpRun | frameworks/native/nearlink_switch_module.cpp:233-271 | over every run an idle module with a cache has a replay queued, if and only if the last queued replay never fails hard while requests are cached |
| SwitchModule.NoLostWakeUp | frameworks/native/nearlink_switch_module.cpp:233-271 | in particular in every run without a hard failure of a replay |
| SwitchModule.WakeUpCanBeLost | frameworks/native/nearlink_switch_module.cpp:125-129 | a run that loses the wake-up |
| SwitchModule.ChooseConserves | frameworks/native/nearlink_switch_module.cpp:238-256 | a finish step replays, keeps or drops each cached event exactly once |
| SwitchModule.FinishExact | frameworks/native/nearlink_switch_module.cpp:238-256 | the replayed event is the first expected one behind the last occurrence of the completed one, differs from it, and no copy of the completed one stays cached |
| SwitchModule.AfterLastExact | frameworks/native/nearlink_switch_module.cpp:273-282 | deduplication leaves exactly the events after the last occurrence of the completed one |
| SwitchModule.WrittenMeetsIntended | frameworks/native/nearlink_switch_module.cpp:244-256 | the code leaves what its comments say if and only if nothing is chosen or the chosen event is first |
| SwitchModule.WrittenRemovesOneMore | frameworks/native/nearlink_switch_module.cpp:246-252 | chosen at k > 0, the code removes k + 2 events and loses the one behind the replayed one, or erases from an empty vector when there is none |
| SwitchModule.RequestLostReachable | frameworks/native/nearlink_switch_module.cpp:246-252 | a run that loses the request behind the replayed one, without the undefined erase |
| SwitchModule.FaultExact | frameworks/native/nearlink_switch_module.cpp:178-217 | the exact inputs that reach the undefined erase; invalid-operation finishes never do |
| SwitchModule.UndefinedEraseReachable | frameworks/native/nearlink_switch_module.cpp:251 | a run that reaches it |
| SwitchModule.OnEnds | frameworks/native/nearlink_switch_module.cpp:178-182 | NEARLINK_ON ends "enable": idle, no timer, and in terms of the cache alone what is replayed, what stays and when the erase is undefined, with "disable" and "disable to off" expected |
| SwitchModule.OffEnds | frameworks/native/nearlink_switch_module.cpp:184-204 | NEARLINK_OFF ends "disable to off", or "disable" on its way to off, and nothing on its way to half; "enable" and "enable to half" are expected |
| SwitchModule.HalfEnds | frameworks/native/nearlink_switch_module.cpp:206-217 | NEARLINK_HALF ends "disable" on its way to half and "enable to half" otherwise; "enable" and "disable to off" are expected |
| SwitchModule.ResponsesSteer | frameworks/native/nearlink_switch_module.cpp:219-231 | each disable response sets its own status and changes nothing else |
| SwitchModule.DisableGoesOff | frameworks/native/nearlink_switch_module.cpp:184-231 | after DISABLE_TO_OFF_RESPONSE, NEARLINK_OFF ends the "disable" |
| SwitchModule.DisableGoesHalf | frameworks/native/nearlink_switch_module.cpp:184-231 | after DISABLE_TO_HALF_RESPONSE, NEARLINK_OFF changes nothing and NEARLINK_HALF ends the "disable" |
| SwitchModule.RequestStep | frameworks/native/nearlink_switch_module.cpp:102-140 | a request is cached last while processing; otherwise it starts, and success, hard error and "already in that state" leave timer, cache and replays as stated |
| SwitchModule.ReplayStep | frameworks/native/nearlink_switch_module.cpp:258-271 | a replay takes the oldest queued request, does the same, and counts no new request |
| SwitchModule.TimeoutStep | frameworks/native/nearlink_switch_module.cpp:94-100 | an armed timeout makes the module idle and drops its cache; any other does nothing |
| SwitchModule.NearlinkSwitchModule.ProcessNearlinkSwitchActionFinished | frameworks/native/nearlink_switch_module.cpp:233-271 | the new state is the finish step of the old one |
| SwitchModule.NearlinkSwitchModule.DeduplicateCachedEvent | frameworks/native/nearlink_switch_module.cpp:273-282 | the backward search keeps what follows the last occurrence |
| SwitchModule.NearlinkSwitchModule.RemoveIgnoredCachedEvent | frameworks/native/nearlink_switch_module.cpp:284-298 | erases one event more than its argument |
| SwitchModule.NearlinkSwitchModule.ProcessNearlinkSwitchAction | frameworks/native/nearlink_switch_module.cpp:102-140 | caches while processing, otherwise starts the action under a timer and undoes or finishes it by its result |
| SwitchModule.NearlinkSwitchModule.ProcessNearlinkSwitchEvent | frameworks/native/nearlink_switch_module.cpp:62-92 | the new state is the event's step of the old one |
| SwitchModule.NearlinkSwitchModule.ProcessNearlinkOffEvent | frameworks/native/nearlink_switch_module.cpp:184-204 | which action NEARLINK_OFF completes in each disable status |
| SwitchModule.NearlinkSwitchModule.ProcessNearlinkHalfEvent | frameworks/native/nearlink_switch_module.cpp:206-217 | which action NEARLINK_HALF completes |
| SwitchModule.NearlinkSwitchModule.OnTaskTimeout | frameworks/native/nearlink_switch_module.cpp:94-100 | the module turns idle and drops its cache |
| Framing.ParseFramesInverts | socket/nearlink_datatransfer_parcel.cpp:45-184 | a buffer parses to a list if and only if the list is sendable and the buffer is the concatenation of its frames |
| Framing.RoundTrip | socket/nearlink_datatransfer_parcel.cpp:102-143 | concatenated frames parse to the same list when every payload is at most 65535 bytes, and to the empty list otherwise |
| Framing.DecodeListExact | socket/nearlink_datatransfer_parcel.cpp:102-143 | a non-empty result's frames are the input byte for byte, and any list whose frames are the input is the result |
| Framing.CutStream | socket/nearlink_datatransfer_parcel.cpp:110-141 | cut at any byte, a stream of frames parses to the frames before the cut at a boundary and to nothing elsewhere |
| Framing.FramePrefixFree | socket/nearlink_datatransfer_parcel.cpp:67-96 | no frame is a proper prefix of another |
| Framing.Layout | socket/nearlink_datatransfer_parcel.cpp:45-100 | where each length, string, port and payload lies in a frame |
| Framing.SendableExact | socket/nearlink_datatransfer_parcel.cpp:165-181 | the limits in numbers: a countable frame and at most 65535 payload bytes |
| Bytes.LowByteFirst | socket/nearlink_datatransfer_parcel.cpp:24-43 | lengths and ports are written with the low byte first |
| Framing.ParseBodyInverts | socket/nearlink_datatransfer_parcel.cpp:145-184 | a body parses to a record if and only if it is that sendable record's body |
| Framing.SerializeData | socket/nearlink_datatransfer_parcel.cpp:45-100 | the final offset equals the precomputed length, failure means an uncopyable address or uuid, and the buffer is the record's frame |
| Framing.WriteLengthAndData | socket/nearlink_datatransfer_parcel.cpp:24-43 | writes length and content at the offset and moves it |
| Framing.DeserializeData | socket/nearlink_datatransfer_parcel.cpp:145-184 | succeeds with the record whose body the input is, fails if there is none; stays within the buffer on every input |
| Framing.DeserializeDataList | socket/nearlink_datatransfer_parcel.cpp:102-143 | terminates on every byte sequence and returns the decoded list |
| Channel.EndToEnd | socket/nearlink_socket_outputstream.cpp:48-85 | after any interleaving of writes and reads: at most 49688 queued bytes, whole frames only, and received records followed by queued ones equal the sent ones in order |
| Channel.CheckNeverSkipped | socket/nearlink_socket_outputstream.cpp:59-72 | in every reachable state the admission check applies |
| Channel.WriteExact | socket/nearlink_socket_outputstream.cpp:48-85 | over every run, a write on a connected socket sends exactly its frame, if and only if address, uuid and payload pass and queued bytes and frame leave 1512 of 51200 bytes free; otherwise nothing changes |
| Channel.UnconnectedWrite | socket/nearlink_socket_manager.cpp:178-195 | without a socket entry a write changes nothing |
| Channel.BatchDrains | frameworks/native/nearlink_sle_datatransfer.cpp:431-468 | one 50 KB read empties the queue and decodes everything in it |
| Channel.OneFrameTaken | services/service/src/datatransfer/nearlink_sle_datatransfer_service.cpp:512-559 | the service's receiver takes exactly the oldest frame and its length check never fails; the record goes on, under the socket's own address, only if the send succeeds |
| Channel.DeliveredInOrder | services/service/src/datatransfer/nearlink_sle_datatransfer_service.cpp:540-556 | over every run, records passed on by the receivers followed by queued ones equal the sent ones, if and only if every batch found live callbacks and every single send succeeded under the record's address |
| Channel.BusyLosesRecord | services/service/src/datatransfer/nearlink_sle_datatransfer_service.cpp:1169-1175 | a run in which a full send queue loses a record |
| Channel.BatchCutShort | frameworks/native/nearlink_sle_datatransfer.cpp:445-459 | a run in which an unregistered port loses the record behind it |
| Channel.DispatchWhole | frameworks/native/nearlink_sle_datatransfer.cpp:445-459 | a batch is handed over whole if and only if each port has a live callback |
| Channel.DispatchStops | frameworks/native/nearlink_sle_datatransfer.cpp:450-452 | an unregistered port ends the batch at that record, whatever the owners of the records before it |
| Channel.DispatchSkips | frameworks/native/nearlink_sle_datatransfer.cpp:453-458 | a record whose owner is gone makes no difference to the others |
| Channel.AcceptedWhenDrained | socket/nearlink_socket_outputstream.cpp:59-72 | on a drained socket a frame is accepted if and only if it has at most 49688 bytes |
| Channel.OversizedNeverSent | frameworks/native/nearlink_sle_datatransfer.cpp:389-405 | a larger frame changes nothing in any reachable state |
| Channel.PortSocket.Write | socket/nearlink_socket_outputstream.cpp:48-85 | refuses exactly when queued bytes, buffer and 1512 exceed 51200 while the queue is below that; sends any other non-empty buffer |
| Channel.PortSocket.WriteData | frameworks/native/nearlink_sle_datatransfer.cpp:375-407 | success means a writable record that was sent if there is a socket entry, or that had none |
| Channel.PortSocket.HandOver | frameworks/native/nearlink_sle_datatransfer.cpp:445-459 | hands over the dispatched records and reports whether all ports are registered |
| Channel.PortSocket.ReceivedData | frameworks/native/nearlink_sle_datatransfer.cpp:431-468 | the new state is the batch-read step, with the exact return value |
| Channel.TakeNext | services/service/src/datatransfer/nearlink_sle_datatransfer_service.cpp:521-540 | one turn of the service's receive loop, a short read leaving zeros |
| PortRegistry.RunKeepsInv | frameworks/native/nearlink_sle_datatransfer.cpp:246-295 | over every run: uuid to port is injective with range equal to the callback keys, at most 120 entries, never port 0, and each live socket has its own descriptor with a worker callback |
| PortRegistry.RegisteredRun | frameworks/native/nearlink_sle_datatransfer.cpp:81-102 | over every run there is no socket for an unregistered port, if and only if no port is destroyed between a connection report's look-up of its callback and the store of its socket |
| PortRegistry.RegisteredStep | frameworks/native/nearlink_sle_datatransfer.cpp:165-186 | each API call and handler keeps that, with the same condition |
| PortRegistry.OrphanReachable | frameworks/native/nearlink_sle_datatransfer.cpp:88-102 | a run that leaves a socket and its worker callback behind a destroyed port |
| PortRegistry.StepKeepsInv | frameworks/native/nearlink_sle_datatransfer.cpp:81-186 | each API call and service callback keeps that invariant |
| PortRegistry.CreateStep | frameworks/native/nearlink_sle_datatransfer.cpp:246-273 | registers one uuid with one port under the exact condition, and changes nothing else |
| PortRegistry.DestroyStep | frameworks/native/nearlink_sle_datatransfer.cpp:275-295 | forgets one uuid, the callback of its port and exactly the sockets of its port with their worker callbacks, and stops the worker with the last |
| PortRegistry.DisconnectStep | socket/nearlink_socket_manager.cpp:212-226 | removes exactly the socket of that port and that address with its worker callback, if the client's callback is alive |
| PortRegistry.ConnectSteps | frameworks/native/nearlink_sle_datatransfer.cpp:81-117 | what the look-up, the store and the end of a connection report change |
| PortRegistry.StopSteps | frameworks/native/nearlink_sle_datatransfer.cpp:165-186 | state-off with a proxy and service-stop drop every registration and exactly the sockets of the registered ports |
| PortRegistry.DestroyExact | socket/nearlink_socket_manager.cpp:197-210 | destroying ports removes exactly their socket entries |
| PortRegistry.ForgetAll | frameworks/native/nearlink_sle_datatransfer.cpp:165-186 | state-off and service-stop leave no registration and no callback, and no socket of a port that was registered |
| PortRegistry.WorkersStep | socket/nearlink_socket_manager.cpp:159-176 | worker callbacks stay equal to the live descriptors unless a key is connected again before a disconnect; if and only if |
| PortRegistry.WorkersRun | socket/nearlink_socket_manager.cpp:159-226 | over every run they are always equal if and only if no key is connected again before a disconnect |
| PortRegistry.StaleCallbackReachable | socket/nearlink_socket_manager.cpp:159-176 | a run that leaves the callback of an old descriptor behind |
| PortRegistry.WorkerStep | socket/nearlink_socket_manager.cpp:302-321 | the worker runs only with a callback, unless it is started after the last one went; if and only if |
| PortRegistry.WorkerJustified | socket/nearlink_socket_manager.cpp:292-331 | over every run the worker never runs without a callback, if and only if no connection report ends when none is left |
| PortRegistry.DestroyStopsIdleWorker | socket/nearlink_socket_manager.cpp:292-331 | after a destroy the worker runs only if a callback remains, if and only if the destroy removes a socket or that held before |
| PortRegistry.IdleWorkerSurvivesDestroy | socket/nearlink_socket_manager.cpp:197-210 | a run in which the destroy of a port without sockets leaves an idle worker running |
| PortRegistry.IdleWorkerReachable | frameworks/native/nearlink_sle_datatransfer.cpp:98-116 | a run with an idle worker: the port is destroyed inside the connection callback |
| PortRegistry.Ports.DestroyPortSockets | socket/nearlink_socket_manager.cpp:197-210 | the erase-while-iterating loop removes the port's sockets and callbacks and stops the worker with the last |
| PortRegistry.Ports.CreatePort | frameworks/native/nearlink_sle_datatransfer.cpp:246-273 | registers exactly when the uuid is new, fewer than 120 are registered and the service gave a port; the code is the service's own answer |
| PortRegistry.Ports.DestroyPort | frameworks/native/nearlink_sle_datatransfer.cpp:275-295 | forgets the uuid, its callback and its sockets |
| PortRegistry.Ports.ForgetAllUuids | utils/include/nearlink_safe_map.h:118-133 | FindAndRmv with a check that always agrees forgets every uuid |
| PortRegistry.Ports.OnStateOff | frameworks/native/nearlink_sle_datatransfer.cpp:165-176 | the new state is the state-off step |
| PortRegistry.Ports.OnServiceStopped | frameworks/native/nearlink_sle_datatransfer.cpp:178-186 | the new state is the service-stop step |
| PortRegistry.Ports.FindCallback | frameworks/native/nearlink_sle_datatransfer.cpp:88-95 | goes on only for a port whose callback is registered and alive |
| PortRegistry.Ports.SetSocketDataTransfer | frameworks/native/nearlink_sle_datatransfer.cpp:97-101 | stores the socket and its worker callback, whatever has become of the port |
| PortRegistry.Ports.OnDisconnected | socket/nearlink_socket_manager.cpp:212-226 | the new state is the disconnect step, which removes exactly the disconnected key |
| Discovery.UnrequestedExact | frameworks/native/nearlink_ssap_client.cpp:563-583 | over every run, the completions reported are all of discoveries that were requested, if and only if none arrives while the flag belongs to a claim that has not made its remote call |
| Discovery.UnrequestedReportReachable | frameworks/native/nearlink_ssap_client.cpp:521-524 | a run that reports a completion although no discovery was ever requested |
| Discovery.TwoInFlightReachable | frameworks/native/nearlink_ssap_client.cpp:526-529 | a run with two in flight: a refused start releases the flag that another start has claimed meanwhile |
| Discovery.SoundExact | frameworks/native/nearlink_ssap_client.cpp:503-605 | over every run, only the flag's claim is open and each report is for a request, if and only if no disconnect finds the flag held by a start under way or left without a request |
| Discovery.SoundStep | frameworks/native/nearlink_ssap_client.cpp:503-605 | each step of a call, the service or a disconnect keeps that, with the same condition |
| Discovery.HandshakeBalances | frameworks/native/nearlink_ssap_client.cpp:503-605 | over every run without such a disconnect, discoveries requested minus completions reported is one while the flag's claim has requested and zero otherwise, at most the flag's own discovery is in flight, and no completion comes without a request |
| Discovery.InFlightBound | frameworks/native/nearlink_ssap_client.cpp:563-605 | over every run, discoveries in flight are at most one more than the disconnects that released the flag of an open claim |
| Discovery.BoundReached | frameworks/native/nearlink_ssap_client.cpp:503-605 | and for every n, n such disconnects and n + 1 discoveries in flight are reached by some run |
| Discovery.CanOverlapExact | frameworks/native/nearlink_ssap_client.cpp:503-531 | from a reachable state, callers alone can bring two discoveries in flight, if and only if the live claims and the free flag number at least two |
| Discovery.StuckExact | frameworks/native/nearlink_ssap_client.cpp:509-519 | from every reachable state with the flag set, the flag stays set until a disconnect if and only if no claim is open |
| Discovery.StuckUntilDisconnected | frameworks/native/nearlink_ssap_client.cpp:509-519 | while it does, no start, fetch or read gets past its wait |
| Discovery.FailedStartBlocks | frameworks/native/nearlink_ssap_client.cpp:521-524 | a start that fails before its remote call leaves the flag set; it blocks the client until a disconnect if and only if no other claim is open, and that disconnect reports an unrequested discovery |
| Discovery.FailedStartReachable | frameworks/native/nearlink_ssap_client.cpp:521-524 | a run that is blocked so |
| Discovery.LastDuplicateWins | frameworks/native/nearlink_ssap_client.cpp:657-665 | a refetch caches the last service with each handle |
| Discovery.CachedIsListed | frameworks/native/nearlink_ssap_client.cpp:657-665 | and nothing else |
| Discovery.FreshRun | frameworks/native/nearlink_ssap_client.cpp:563-573 | over every run, a valid cache was always fetched after the last discovery ended, if and only if no discovery ends untold, or told with the flag clear, while the cache is valid or being filled |
| Discovery.FreshExact | frameworks/native/nearlink_ssap_client.cpp:563-573 | at the end of any run it was, if and only if no such end has happened since the fetch |
| Discovery.SoundNeverMisses | frameworks/native/nearlink_ssap_client.cpp:563-573 | when every end is told, it takes a disconnect that finds a start under way to miss one |
| Discovery.ServeExact | frameworks/native/nearlink_ssap_client.cpp:864-880 | in every reachable state, the read that follows GetServices hands out exactly the last list fetched, with no completion reported and no discovery ended since, if and only if the cache is valid, has missed no end, and what GetService(uuid) and notifications wrote is what the list holds |
| Discovery.ServedExact | frameworks/native/nearlink_ssap_client.cpp:864-880 | over every run, every caller is handed such a list, if and only if that holds at each read |
| Discovery.SpoilStep | frameworks/native/nearlink_ssap_client.cpp:700-729 | a current list stays current through a step unless the step reports a completion, misses an end, or writes what the map does not hold; if and only if |
| Discovery.UndisturbedRead | frameworks/native/nearlink_ssap_client.cpp:700-729 | between the end of GetServices and the read nothing else can make the list old |
| Discovery.OldListServed | frameworks/native/nearlink_ssap_client.cpp:864-880 | a run that hands out a list from before a completed discovery |
| Discovery.ClearedListServed | frameworks/native/nearlink_ssap_client.cpp:719-720 | a run that hands out an emptied map with a success code |
| Discovery.OldServiceServed | frameworks/native/nearlink_ssap_client.cpp:838-860 | a run that hands out a service GetService(uuid) fetched before a completed discovery |
| Discovery.EndInvalidates | frameworks/native/nearlink_ssap_client.cpp:363-376 | the end of a discovery invalidates the cache if and only if the client is told while the flag is set |
| Discovery.StartedAnswers | frameworks/native/nearlink_ssap_client.cpp:503-531 | field by field, what a start that finds the flag free leaves behind: refused, it has completed itself and nothing of it is open; accepted, it runs; without a registration or a proxy, only the flag is set |
| Discovery.ClaimStep | frameworks/native/nearlink_ssap_client.cpp:509-519 | a claim takes a free flag |
| Discovery.CallSteps | frameworks/native/nearlink_ssap_client.cpp:521-530 | a claimed start leaves, is accepted or is refused, and the flag stays |
| Discovery.CompletionStep | frameworks/native/nearlink_ssap_client.cpp:563-583 | whatever brings a completion, it releases a set flag with one report, and the claim that brings it is over |
| Discovery.CompletionCache | frameworks/native/nearlink_ssap_client.cpp:563-583 | the cache is invalid after it if the flag was set, and otherwise as it was |
| Discovery.UntoldEndStep | frameworks/native/nearlink_ssap_client.cpp:563-583 | an end that is not told changes neither flag nor cache |
| Discovery.GetBeginStep | frameworks/native/nearlink_ssap_client.cpp:706-722 | what GetServices does to the cache before it fills it, in each case |
| Discovery.NotifyStep | frameworks/native/nearlink_ssap_client.cpp:115-172 | a notification writes one value of one service |
| Discovery.MissedEndServed | frameworks/native/nearlink_ssap_client.cpp:563-573 | a run that hands out a list from before a discovery that ended with the flag clear |
| Discovery.SsapClient.ClaimFlag | frameworks/native/nearlink_ssap_client.cpp:509-519 | claims the flag exactly when it is free |
| Discovery.SsapClient.RequestDiscovery | frameworks/native/nearlink_ssap_client.cpp:521-530 | makes the remote call or leaves without one, with the flag left set |
| Discovery.SsapClient.FindStructureComplete | frameworks/native/nearlink_ssap_client.cpp:563-583 | reports and invalidates the cache exactly when the flag was set, whoever holds it |
| Discovery.SsapClient.FindStructureStart | frameworks/native/nearlink_ssap_client.cpp:503-531 | an uninterrupted start, with the exact state it leaves in each case: the flag is released again only when the remote call is refused |
| Discovery.SsapClient.BuildServiceList | frameworks/native/nearlink_ssap_client.cpp:657-665 | the insertion loop builds the map by handle |
| Discovery.SsapClient.GetServices | frameworks/native/nearlink_ssap_client.cpp:700-729 | serves or refetches; after a refetch the cache is the list just fetched |
| Discovery.SsapClient.GetServiceList | frameworks/native/nearlink_ssap_client.cpp:864-880 | hands out what the map holds when the mutex is free again |
| Discovery.SsapClient.WaitForUuid | frameworks/native/nearlink_ssap_client.cpp:832-850 | passes only while no discovery runs |
| Discovery.SsapClient.FetchServiceByUuid | frameworks/native/nearlink_ssap_client.cpp:851-856 | takes the answer whether or not a discovery runs by then |
| Discovery.SsapClient.InsertService | frameworks/native/nearlink_ssap_client.cpp:857-860 | inserts whatever has happened since the fetch |
| Discovery.SsapClient.OnNotified | frameworks/native/nearlink_ssap_client.cpp:115-172 | writes the value into the first cached service, in key order, that has the property or event |
| SaManager.RunNotifiesOnce | frameworks/native/nearlink_sa_manager.cpp:106-136 | over every run, whenever the service is started each live registration's started function has run exactly once since it came up, blocked registrations included, if and only if no start repeats and no remote object is missing at a registration |
| SaManager.NotifiedTwiceReachable | frameworks/native/nearlink_sa_manager.cpp:106-120 | a run that notifies twice |
| SaManager.NeverNotifiedReachable | frameworks/native/nearlink_sa_manager.cpp:224-228 | a run that does not notify at all |
| SaManager.NotificationStep | frameworks/native/nearlink_sa_manager.cpp:202-241 | each step keeps that, unless it is a repeated start or a registration without a remote object; if and only if |
| SaManager.StartStep | frameworks/native/nearlink_sa_manager.cpp:106-120 | a start brings the service up from any state and runs each started function, once in a new period |
| SaManager.StopStep | frameworks/native/nearlink_sa_manager.cpp:122-136 | a stop sets the state and changes no registration |
| SaManager.RegisterStep | frameworks/native/nearlink_sa_manager.cpp:202-241 | one new registration, waiting before the first event and notified only while started |
| SaManager.LeaveSteps | frameworks/native/nearlink_sa_manager.cpp:212-248 | a deregistration forgets one id; a wait without an event counts the service as stopped |
| SaManager.UpExact | frameworks/native/nearlink_sa_manager.cpp:106-136 | over every run the service counts as started if and only if the last start or stop was a start |
| SaManager.FreeIdExists | frameworks/native/nearlink_sa_manager.cpp:189-200 | fewer than INT32_MAX - 1 registrations leave an id free |
| SaManager.AllocatesExact | frameworks/native/nearlink_sa_manager.cpp:189-200 | the allocated id is free and everything from the counter up to it, across the wrap-around, is used |
| SaManager.NearlinkSaManager.AllocateProfileId | frameworks/native/nearlink_sa_manager.cpp:189-200 | terminates by cyclic distance and returns the first unused id from the counter on, between 1 and INT32_MAX - 1 |
| SaManager.NearlinkSaManager.RegisterFunc | frameworks/native/nearlink_sa_manager.cpp:202-241 | the new id was unused, so no live registration is overwritten; notifies at once only when started, and runs the state-on function only when available as well |
| SaManager.NearlinkSaManager.RunStartedFuncs | frameworks/native/nearlink_sa_manager.cpp:110-117 | each started function runs once more, no other |
| SaManager.NearlinkSaManager.OnServiceStarted | frameworks/native/nearlink_sa_manager.cpp:106-120 | the new state is the start step |
| SaManager.NearlinkSaManager.WaitEnded | frameworks/native/nearlink_sa_manager.cpp:212-223 | without an event in time the service counts as stopped, even if the id is gone by then |
| Uuids.TextRoundTrip | frameworks/native/nearlink_uuid.cpp:100-157 | FromString undoes ToString |
| Uuids.CanonicalForm | frameworks/native/nearlink_uuid.cpp:100-157 | ToString after FromString is the upper-case 8-4-4-4-12 form of every accepted string |
| Uuids.TextExact | frameworks/native/nearlink_uuid.cpp:141-157 | 36 characters, dashes at 8, 13, 18 and 23, and each byte as two upper-case digits at its place |
| Uuids.FromTextExact | frameworks/native/nearlink_uuid.cpp:100-125 | byte by byte, what a text of a wrong length or with a wrong digit gives |
| Uuids.UpperExact | frameworks/native/nearlink_uuid.cpp:100-125 | a to f count as A to F, and nothing else is touched |
| Uuids.CompareToIsByteOrder | frameworks/native/nearlink_uuid.cpp:159-173 | the sign of CompareTo is byte-lexicographic order, zero exactly on equal uuids |
| Uuids.CompareBytesExact | utils/include/sle_uuid.h:268-276 | the smaller uuid has the smaller byte at the first difference |
| Uuids.LessIsTotalOrder | utils/include/sle_uuid.h:268-276 | operator < is a strict total order |
| Uuids.HalvesOfUuid | frameworks/native/nearlink_uuid.cpp:53-88 | the masked-shift constructor inverts the byte-folding getters |
| Uuids.UuidOfHalves | frameworks/native/nearlink_uuid.cpp:175-191 | and the getters invert the constructor |
| Uuids.HalvesPlaces | frameworks/native/nearlink_uuid.cpp:175-191 | byte 0 is the top of the most significant half and byte 15 the bottom of the other |
| Uuids.FoldIsShift | ipc_parcel/parcel/nearlink_uuid_parcel.cpp:24-32 | the parcel's shift expression equals the getters' loop for every value |
| Uuids.ShiftOutIsSplit | utils/src/sle_uuid.cpp:80-94 | shifting then masking equals masking then shifting, so the two 64-bit constructors agree |
| Uuids.ToString | frameworks/native/nearlink_uuid.cpp:141-157 | the digit loop produces the dashed text |
| Uuids.RemoveDashes | frameworks/native/nearlink_uuid.cpp:103-109 | the find-and-replace loop removes every dash and nothing else |
| Uuids.FromString | frameworks/native/nearlink_uuid.cpp:100-125 | a wrong length gives zeros, a wrong digit keeps the bytes before it |
| Uuids.Less | utils/include/sle_uuid.h:268-276 | the first differing byte decides |
| Uuids.Equals | frameworks/native/nearlink_uuid.cpp:165-173 | equal exactly when CompareTo gives zero |
| Uuids.GetHalves | utils/include/sle_uuid.h:219-241 | the two folding loops |
| Parcels.ServiceRoundTrip | ipc_parcel/parcel/nearlink_ssap_service_parcel.cpp:122-191 | any tree passes marshalling and is read back as the same tree with includeServices_ emptied, nothing more consumed, if and only if every nested list is within its limit |
| Parcels.LongListPasses | ipc_parcel/parcel/nearlink_ssap_service_parcel.cpp:29-62 | a list of 2^32 elements passes the checks and is not read back |
| Parcels.TakenServiceFits | ipc_parcel/parcel/nearlink_ssap_service_parcel.cpp:164-191 | whatever the parcel holds, a service that is read is within the limits and has no included services |
| Parcels.ServiceBack | ipc_parcel/parcel/nearlink_ssap_service_parcel.cpp:164-191 | a service within the limits is read back |
| Parcels.PassesIsFits | ipc_parcel/parcel/nearlink_ssap_service_parcel.cpp:29-62 | the uint32_t size checks are the limits for lists shorter than 2^32 |
| Parcels.PropertyBack | ipc_parcel/parcel/nearlink_ssap_property_parcel.cpp:26-120 | a property with its descriptors is read back, its permission written as Int32 and read as Uint16 |
| Parcels.MethodBack | ipc_parcel/parcel/nearlink_ssap_method_parcel.cpp:24-118 | a method is read back |
| Parcels.EventBack | ipc_parcel/parcel/nearlink_ssap_event_parcel.cpp:24-85 | an event is read back |
| Parcels.DescriptorBack | ipc_parcel/parcel/nearlink_ssap_descriptor_parcel.cpp:23-92 | a descriptor is read back |
| Parcels.UuidBack | ipc_parcel/parcel/nearlink_uuid_parcel.cpp:22-53 | two 64-bit words carry a uuid |
| Parcels.ServiceLayout | ipc_parcel/parcel/nearlink_ssap_service_parcel.cpp:122-147 | which slot holds which field of a service |
| Parcels.MembersLayout | ipc_parcel/parcel/nearlink_ssap_service_parcel.cpp:27-70 | properties, methods, events and descriptors in this order, each list after its count |
| Parcels.PropertyLayout | ipc_parcel/parcel/nearlink_ssap_property_parcel.cpp:26-66 | which slot holds which field of a property |
| Parcels.MethodLayout | ipc_parcel/parcel/nearlink_ssap_method_parcel.cpp:24-62 | which slot holds which field of a method |
| Parcels.EventLayout | ipc_parcel/parcel/nearlink_ssap_event_parcel.cpp:24-50 | which slot holds which field of an event |
| Parcels.DescriptorLayout | ipc_parcel/parcel/nearlink_ssap_descriptor_parcel.cpp:23-52 | which slot holds which field of a descriptor |
| Parcels.ServiceFitsExact | ipc_parcel/parcel/nearlink_ssap_service_parcel.cpp:27-120 | the limits in numbers |
| Parcels.NullFails | ipc_parcel/parcel/nearlink_ssap_service_parcel.cpp:74-85 | a reader fails on a null object |
| Parcels.MissingHalves | ipc_parcel/parcel/nearlink_uuid_parcel.cpp:43-53 | a missing half of a uuid is zero |
| Parcels.MarshalService | ipc_parcel/parcel/nearlink_ssap_service_parcel.cpp:122-147 | succeeds exactly when the size checks pass and appends the written form |
| Parcels.WriteMembers | ipc_parcel/parcel/nearlink_ssap_service_parcel.cpp:27-70 | the four lists in order |
| Parcels.UnmarshalService | ipc_parcel/parcel/nearlink_ssap_service_parcel.cpp:164-191 | reads what the reader specification takes, or fails; a missing uuid word is zero |
| Parcels.ReadMembers | ipc_parcel/parcel/nearlink_ssap_service_parcel.cpp:72-120 | the four lists back |
| Parcels.Parcel.WriteList | ipc_parcel/parcel/nearlink_ssap_service_parcel.cpp:29-38 | the list-writing loop |
| Parcels.Parcel.ReadList | ipc_parcel/parcel/nearlink_ssap_service_parcel.cpp:74-85 | the list-reading loop |
| Parcels.Parcel.ReadBlock | ipc_parcel/parcel/nearlink_ssap_descriptor_parcel.cpp:71-84 | the byte-reading loop |
| AdvertiserData.AdvBack | ipc_parcel/parcel/nearlink_sle_advertiser_data.cpp:24-89 | written data is read back, both maps included, whatever order lists their keys |
| AdvertiserData.MapBack | ipc_parcel/parcel/nearlink_sle_advertiser_data.cpp:124-200 | a map written entry by entry is rebuilt as the same map |
| AdvertiserData.AdvLayout | ipc_parcel/parcel/nearlink_sle_advertiser_data.cpp:24-48 | the list, both maps and the four trailing fields in this order, each collection after its count |
| AdvertiserData.PairLayout | ipc_parcel/parcel/nearlink_sle_advertiser_data.cpp:124-139 | a key and its text for each entry in turn |
| AdvertiserData.TakenAdvFits | ipc_parcel/parcel/nearlink_sle_advertiser_data.cpp:66-122 | whatever the parcel holds, data that is read is within the limits |
| AdvertiserData.FirstEntryStays | ipc_parcel/parcel/nearlink_sle_advertiser_data.cpp:141-160 | of two entries with one key the first stays |
| AdvertiserData.MarshalAdvData | ipc_parcel/parcel/nearlink_sle_advertiser_data.cpp:24-48 | succeeds exactly when the list and both maps have at most 0x400 entries, and writes both in key order |
| AdvertiserData.WritePairs | ipc_parcel/parcel/nearlink_sle_advertiser_data.cpp:162-177 | iterates in ascending key order, each key once |
| AdvertiserData.ReadPairs | ipc_parcel/parcel/nearlink_sle_advertiser_data.cpp:141-160 | the emplacing loop |

## Left out

- Proxies, IPC stubs and the other client wrappers (host, remote device, TWS, VCP, HID, CDSM, ranging,
  scanner, controller): guard checks in front of a forwarded call.
- epoll, fcntl, socketpair and kernel buffer settings; only a byte queue of fixed capacity is modelled.
- Real time, threads and the ffrt queue: a timeout task that is already waiting for the mutex when it is
  cancelled is not modelled, and neither are two concurrent `CreatePort` calls.
- The automatic-connection policy of a request, and return codes of switch events that cannot fail.
- The service's transfer-busy state before it reads, which only delays the read, and what it does with a
  frame that does not decode: no such frame is ever queued.
- Getters, setters and copies of the SSAP and advertising value classes, and flat parcels.
- The advertising size check, the SSAP server's bookkeeping, logging and masking.
- `UUID(uint16_t)` and the other 16-bit conversions.
- Inside a list element, the parcel loops are modelled on values: an element's slots are computed by a
  function and appended at once, so a partly written parcel after a failure is not described.
- The second loop of `BuildServiceList`, which links included services: it runs over includeServices_,
  which is empty in every service that came through a parcel (`Parcels.TakenServiceFits`).
- Several properties with one handle inside a cached service: a notification writes to the first of them.
- A parcel read with the wrong kind of slot: a kind that is not there counts as nothing to read.

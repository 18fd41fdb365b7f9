# RPC worker, MVDM event client and vitals service — a Dafny model

This project models three pieces of a VistA RPC emulation server.

- **The RPC worker** (`rpc_worker.dfy`, module `RpcWorker`).
  - It routes each parsed RPC. A name in the unsupported-RPC table gets its canned response and is addressed to "server". Any other name goes to the dispatcher.
  - A dispatcher exception becomes an `ERROR` record.
  - MVDM events raised during dispatch reach the installed listeners synchronously. Each one is relayed as an `emitMvdmEvent` message before the call's audit event.
  - Every call sends exactly one `emitRpcEvent` audit event. The event's user id is prefixed with `200-` and its facility id with `4-`.
  - The queue `message` handler is a small state machine over `callRPC`, `dbReinit` and `lockedRPCList`.
  - A one-shot flag installs the seven MVDM relays on the first message only.
  - At start-up the worker builds the GT.M routine search path and registers the configured lockers in order.
  - Module-level state is the class `Worker`. `Worker.OnMessage` is proved equal to the pure transition `Step`, and `Run` folds `Step` over a message sequence.
- **The MVDM event client** (`mvdm_client.dfy`, module `MvdmClient`).
  - `processEvent` sends the envelope `socketMessage_<category>` to each subscribed socket, in list order.
  - Connect handlers append to the socket lists. Close handlers splice the socket out.
  - `PUT /management` updates only the settings keys that are present.
  - Event types are routed to the MVDM list or the RPC list.
- **The vitals service** (`vitals_service.dfy`, module `VitalsService`).
  - The constructor requires a patient id.
  - `list` applies default date bounds, then keeps the vitals taken inside the inclusive window, in store order.
  - `getMostRecentVitals` keeps the latest vital of each type. A later entry wins a tie. The result follows the order in which each type first appears.
  - `create` maps qualifier ids to `{id}` records.

`wrappers.dfy` holds the `Option` and `Result` types.

Collaborators whose code is not part of this model are inputs:
- the RPC parser, the dispatcher, the unsupported-RPC table, the context store and the user/facility lookup;
- the MVDM store;
- module loading (`require`).

Transaction ids, clock readings and vitals timestamps are passed in as parameters. Timestamps are integer milliseconds. Messages to `send` (the MVDM relays and the audit events), `finished` and `client.send` are appended to logs (`sent`, `finished`, `Outbox.deliveries`). The worker records its calls into collaborators, in order, in `calls`.

## Model

| member | source | states |
|---|---|---|
| RpcWorker.ShortcutBypassesDispatcher | rpcServer/rpcQWorker.js:182-190 | For an RPC name in the unsupported table: the response is exactly the table entry, `to` is "server", and the transaction id is the fresh one. The dispatcher is never called, and replacing the dispatcher leaves the whole result unchanged. Nothing is relayed, because no locker runs. |
| RpcWorker.DispatchedFieldsCopied | rpcServer/rpcQWorker.js:192-216 | For any other name the dispatcher is called once, then the user/facility lookup. `to`, `response`, `transactionId`, `lockerName` and `runResult` are the dispatcher's `path`, `rpcResponse`, `transactionId`, `lockerName` and `result`, unchanged. The relays are those of the MVDM events raised during that dispatch, in order. |
| RpcWorker.DispatchErrorNormalized | rpcServer/rpcQWorker.js:196-210 | A dispatcher exception does not escape. It yields `to` = `lockerName` = "ERROR", response and run result equal to the exception message, and transaction id equal to its `errno`. The MVDM events raised before the exception are still relayed. |
| RpcWorker.EventMirrorsCall | rpcServer/rpcQWorker.js:219-265 | The audit event has type "rpcCall". Its runner, RPC name, arguments, response, RPC object, timestamp and IP address are those of the call. The user id is "200-" followed by the user id as JavaScript renders it ("undefined" when missing); the facility id is "4-" followed by the facility id, rendered the same way. |
| RpcWorker.RelaysMirrorRaised | rpcServer/rpcQWorker.js:269-328 | Each MVDM event raised during a dispatch yields one `emitMvdmEvent` message. The messages come in the order the events were raised, carry each event's data and matching event type, and none of them is an audit event. |
| RpcWorker.Worker.RelayRaised | rpcServer/rpcQWorker.js:196-198 | Once the listeners are installed, the events a locker raises are appended to `sent` as their relays, in order. Before that, nothing is sent. |
| RpcWorker.Worker.CallRpc | rpcServer/rpcQWorker.js:174-267 | The imperative `callRPC` returns the object and response of `CallRpcResult`. It appends to `sent` the relays of the MVDM events raised during dispatch (when the listeners are installed), then exactly one audit event. It appends its collaborator calls to `calls`. |
| RpcWorker.StepOutputs | rpcServer/rpcQWorker.js:339-381 | One message sends one audit event exactly when its method is 'callRPC'. It adds one `finished` entry exactly when the method is one of the three known ones. It installs the seven MVDM relays only if they were not yet installed, and afterwards they are installed. |
| RpcWorker.RunOutputs | rpcServer/rpcQWorker.js:339-381 | Over any message sequence: the audit events equal the number of 'callRPC' messages; the `finished` entries equal the number of messages with a known method; the relays are installed seven times in all, on the first message only. |
| RpcWorker.CallRpcUsesMessageSettings | rpcServer/rpcQWorker.js:346-360 | 'callRPC' sets the emulation flag from `isRPCEmulated` and the active context from `contextId` before dispatching. The dispatcher answers with those settings. `send` receives the relays of the MVDM events raised during dispatch, then one audit event as the last message. `finished` receives one 'rpcResponse' with the routed response. For a name in the unsupported table, the audit event is the only message sent and the response is the table's canned entry. |
| RpcWorker.DbReinitClearsContexts | rpcServer/rpcQWorker.js:361-370 | 'dbReinit' calls reinit and then clear-all, empties the worker's record of the contexts it has set and the active context, sends nothing, and finishes with no payload. |
| RpcWorker.UnknownMethodIgnored | rpcServer/rpcQWorker.js:339-381 | A message with any other method changes nothing except the one-shot relay installation; in particular it never calls `finished`. |
| RpcWorker.InstallHandlersCount | rpcServer/rpcQWorker.js:341-343 | The one-shot guard installs seven relays when the flag is down and none when it is up, and raises the flag. |
| RpcWorker.Worker.HandleCallRpc | rpcServer/rpcQWorker.js:346-360 | The imperative 'callRPC' branch sets the emulation flag and the context, runs `callRPC` with the listeners installed, and finishes with its result. Its new state is the pure 'callRPC' step. |
| RpcWorker.Worker.OnMessage | rpcServer/rpcQWorker.js:339-381 | The imperative handler's new state is `Step` of the old state and the message. For 'callRPC' that step sends the relays of the raised MVDM events and then the audit event. For 'lockedRPCList' it finishes with 'rpcL' and the dispatcher's emulated-RPC list. |
| RpcWorker.Worker.SetMvdmHandlers | rpcServer/rpcQWorker.js:269-328 | Installs the seven MVDM relays (create … delete) in source order and raises the one-shot flag. |
| RpcWorker.Worker.OnMvdmEvent | rpcServer/rpcQWorker.js:269-328 | Once the relays are installed, an MVDM event is sent as `emitMvdmEvent` with the event type mvdmCreate … mvdmDelete matching its kind. Before that, nothing is sent. |
| RpcWorker.Worker.constructor | rpcServer/rpcQWorker.js:20-26 | The worker starts with the relays not installed, no context, empty logs, no registered lockers, and the configured client name. Its routine path is the one inherited from the environment, possibly unset. |
| RpcWorker.Worker.ConnectVistaDatabase | rpcServer/rpcQWorker.js:38-45 | The routine path becomes the one `setGtmRoutinePath` builds from the inherited path, the VDM path and the lockers. The context store starts empty. |
| RpcWorker.SetGtmRoutinePath | rpcServer/rpcQWorker.js:51-64 | The path is the existing routine path ("" when unset), then the VDM path, then each locker's non-empty `routinePath` in configuration order, joined by single spaces. Splitting the path at spaces gives the inherited path's own entries first and unchanged, then the entries of the VDM path and of each locker path. When no element contains a space, the split gives back exactly the elements. |
| RpcWorker.SplitAtSeparator | rpcServer/rpcQWorker.js:63 | Splitting two strings joined by one separator gives the pieces of the first followed by the pieces of the second, whatever separators either holds. |
| RpcWorker.JoinSplitEach | rpcServer/rpcQWorker.js:63 | Splitting a separator-joined list gives the pieces of each element in turn, with no condition on the elements. |
| RpcWorker.JoinSplit | rpcServer/rpcQWorker.js:63 | Splitting a space-joined list at spaces returns the list, provided no element contains a space. |
| RpcWorker.LoadModelsSucceedsIff | rpcServer/rpcQWorker.js:110-136 | Loading a locker's models gets through the whole list exactly when every model path loads. |
| RpcWorker.InjectModelShape | rpcServer/rpcQWorker.js:117-135 | One loaded model module only appends to the shared VDM and MVDM lists, and appends exactly its own models. Each part the module has yields exactly one injection: a VDM or MVDM injection hands over the whole extended list, an RPC-list injection the module's own model. The injections come in VDM, MVDM, RPC-list order. |
| RpcWorker.LoadModelsExtendsLists | rpcServer/rpcQWorker.js:113-136 | Loading a locker's models, whether it succeeds or stops at a failing module, never removes anything from the shared VDM and MVDM lists. |
| RpcWorker.LoadLockerModels | rpcServer/rpcQWorker.js:110-136 | The model-loading loop extends the shared VDM and MVDM lists and injects the extended lists into the emulator. It stops with failure at the first model that does not load; the extensions made before the failure remain. |
| RpcWorker.RegisterLockerNames | rpcServer/rpcQWorker.js:99-144 | One locker adds its name ("UNKNOWN" when the name is missing or empty) exactly when its emulator and all its models load. |
| RpcWorker.RegistrationOrder | rpcServer/rpcQWorker.js:98-145 | The registered names are the names of exactly the lockers that load, in configuration order. A locker that throws is skipped, and later lockers are still registered. |
| RpcWorker.Worker.CreateDispatcher | rpcServer/rpcQWorker.js:87-146 | The imperative registration loop leaves the same emulators, with the same injections, as `RegisterAll` on the configuration. |
| MvdmClient.BroadcastInOrder | rpcNodeOnlyServer/mvdmClient.js:147-150 | A broadcast makes one delivery per client. The k-th delivery goes to the k-th client and carries the same envelope. |
| MvdmClient.BroadcastExactlyOnce | rpcNodeOnlyServer/mvdmClient.js:147-150 | With no socket listed twice, each listed socket receives the envelope exactly once, and an unlisted socket receives nothing. |
| MvdmClient.ProcessEvent | rpcNodeOnlyServer/mvdmClient.js:139-151 | The deliveries appended are the envelope {type "socketMessage_" + category, eventCategory category, data event}, sent to every client of the list in order. |
| MvdmClient.RemoveFirstAt | rpcNodeOnlyServer/mvdmClient.js:95-97 | When position i holds the first occurrence of the socket, removing its first occurrence is the splice at i. |
| MvdmClient.RemoveFirstAbsent | rpcNodeOnlyServer/mvdmClient.js:93-100 | Removing a socket that is not listed leaves the list unchanged. |
| MvdmClient.RemoveFirstMultiset | rpcNodeOnlyServer/mvdmClient.js:93-100 | Removal takes away exactly one copy of the socket if present, and nothing else. |
| MvdmClient.HandleSocketClose | rpcNodeOnlyServer/mvdmClient.js:93-100 | With the loop bounded by the list length, the first occurrence of the socket is removed and the other clients keep their order. A socket that is not listed leaves the list unchanged. |
| MvdmClient.CloseAsWrittenNeverStops | rpcNodeOnlyServer/mvdmClient.js:94 | As written, the loop does not stop within any number of iterations when the socket is absent from a non-empty list. |
| MvdmClient.CloseAsWrittenCounterexample | rpcNodeOnlyServer/mvdmClient.js:94 | Closing socket 2 while only socket 1 is listed: the loop as written never stops. |
| MvdmClient.CloseAsWrittenAgreesWhenPresent | rpcNodeOnlyServer/mvdmClient.js:93-100 | When the socket is listed, the loop as written stops within the list length and agrees with the corrected removal. |
| MvdmClient.ApplySettingsIdempotent | rpcNodeOnlyServer/mvdmClient.js:41-49 | Applying the same settings body twice has the same effect as applying it once. |
| MvdmClient.ApplySettingsIgnoresOtherKeys | rpcNodeOnlyServer/mvdmClient.js:43-49 | Keys other than `isMvdmEmulated` and `isNodeOnly` have no effect on the settings. |
| MvdmClient.GetManagement | rpcNodeOnlyServer/mvdmClient.js:30-33 | Returns the current settings. |
| MvdmClient.PutManagement | rpcNodeOnlyServer/mvdmClient.js:36-53 | Without a body the status is 400 and nothing changes. Otherwise the status is 200, and each of the two keys is updated only when present in the body; the other keeps its value. |
| MvdmClient.ClientList.Connect | rpcNodeOnlyServer/mvdmClient.js:58-60 | A new socket is appended to the end of the list. |
| MvdmClient.EventServer.constructor | rpcNodeOnlyServer/mvdmClient.js:55-80 | Both socket lists start empty and are two distinct lists. |
| MvdmClient.EventServer.OnConnect | rpcNodeOnlyServer/mvdmClient.js:58-77 | A socket opened on '/mvdmEvents' or '/rpcEvents' is appended to that list, and the other list does not change. |
| MvdmClient.EventServer.OnClose | rpcNodeOnlyServer/mvdmClient.js:61-76 | A socket's close removes its first occurrence from the list it joined, and the other list does not change. |
| MvdmClient.EventRouting | rpcNodeOnlyServer/mvdmClient.js:102-137 | All seven mvdm* event types are routed to the MVDM list with category 'MVDM', and 'rpcCall' to the RPC list with category 'RPC'. |
| MvdmClient.EventServer.OnEvent | rpcNodeOnlyServer/mvdmClient.js:102-151 | An event with a listened-for type is broadcast to that type's list under that list's category. Any other event sends nothing. |
| VitalsService.PatientIdOf | services/vitals/vitalsService.js:26-28 | Succeeds exactly when the context's patient id is present and non-empty, and yields that id. Otherwise it fails with "Vitals service requires a patientId". |
| VitalsService.Open | services/vitals/vitalsService.js:25-37 | Opening fails, with the constructor's error, exactly when the patient id is missing or empty. Otherwise the new service holds that patient id and has no events yet. |
| VitalsService.VitalsService.constructor | services/vitals/vitalsService.js:25-37 | The service keeps the context's patient id and the store, and starts with no events. |
| VitalsService.WindowBounds | services/vitals/vitalsService.js:126-136 | A given bound is kept. A missing start becomes 1900-01-01. A missing end becomes the start, or "now" when neither bound is given. |
| VitalsService.FilteredMultiplicity | services/vitals/vitalsService.js:138-144 | A vital inside the window keeps its multiplicity in the result; a vital outside it does not appear. |
| VitalsService.FilteredMembers | services/vitals/vitalsService.js:138-144 | A vital is in the result exactly when it is among the store results and its taken time t satisfies start <= t <= end. |
| VitalsService.FilteredIsSubsequence | services/vitals/vitalsService.js:138-144 | The result is an order-preserving subsequence of the store results. |
| VitalsService.FilteredIdempotent | services/vitals/vitalsService.js:138-144 | Filtering the result again with the same window changes nothing. |
| VitalsService.VitalsService.List | services/vitals/vitalsService.js:122-153 | Returns the store's vitals for the patient that fall inside the defaulted inclusive window, in store order. It emits the 'list' event only when `suppressEvent` is false. |
| VitalsService.LabelsCover | services/vitals/vitalsService.js:185-188 | The listed type labels are exactly the labels occurring among the vitals. |
| VitalsService.LabelsDistinct | services/vitals/vitalsService.js:185-188 | No type label is listed twice. |
| VitalsService.LatestIsUnique | services/vitals/vitalsService.js:178-182 | At most one position is the latest of a type: the maximal taken time, with no later entry of that type at the same time. |
| VitalsService.MostRecentSelectionUnique | services/vitals/vitalsService.js:174-188 | The most-recent selection is determined by the vitals: any two selections of the same vitals are equal. |
| VitalsService.SelectionOnePerType | services/vitals/vitalsService.js:174-188 | A selection holds at most one vital per type label. |
| VitalsService.TracksStep | services/vitals/vitalsService.js:175-183 | One iteration of the scan keeps the dictionary correct. A vital of a new type, or one taken no earlier than the stored vital (`>=`), overwrites the entry; the entry then holds the latest vital of each type seen so far. |
| VitalsService.ScanByType | services/vitals/vitalsService.js:174-183 | The first loop leaves the labels in order of first appearance, and a dictionary that holds, for each label seen, the latest vital of that type. |
| VitalsService.TracksSelection | services/vitals/vitalsService.js:185-188 | Reading that dictionary in label order gives the most-recent selection. |
| VitalsService.SelectMostRecent | services/vitals/vitalsService.js:174-188 | The result has one vital per type label, in order of first appearance. Each vital has the maximal taken time of its type, and on equal times the later entry wins. |
| VitalsService.VitalsService.GetMostRecentVitals | services/vitals/vitalsService.js:169-195 | Returns the most-recent selection of the defaulted window's vitals, computed with the inner `list` event suppressed. It emits exactly one 'mostRecentVitals' event with that result. |
| VitalsService.VitalsService.Create | services/vitals/vitalsService.js:55-90 | Submits one request of type 'Vital' carrying the picked fields. When qualifiers are given, `qualifier` holds one `{id}` per qualifier, in the same order; otherwise it is absent. It returns the store's response and emits one 'create' event carrying it. |

## Left out

- I/O and the process around the worker are not modelled: the `nodem` database, `process.exit`, the uncaught-exception handler, logging, and the 'start' and 'stop' handlers. `uuid.v4` and `new Date().toISOString()` are parameters of each delivery.
- The dispatcher, the RPC parser, the unsupported-RPC table, the context store, `MVDM` and `vdmUtils` are not part of this model. They are abstract functions and maps; the dispatcher answers from its emulation flag, the active context and the call.
- Dynamic `require` and emulator construction are the `Loader` parameter: whether an emulator path loads, and which model module a path yields.
- RpcWorker.Worker.CreateDispatcher: the dispatcher's own registration (its precedence handling) is not modelled. The model records the emulators in registration order with their model injections.
- RpcWorker.Worker.CreateDispatcher: an exception thrown by the emulator's `addVDMModel`, `addMVDMModel` or `addEmulatorModel`, or by `registerEmulator` (inside the try at rpcServer/rpcQWorker.js:103-141), also makes the source skip the locker. The `Loader` only says whether a `require` or the emulator's construction fails, so those throws are not modelled.
- RpcWorker.Worker.CallRpc: the user/facility lookup after dispatch is taken to raise no MVDM events. Installing a relay is recorded in `calls`; a relay firing is recorded only in `sent`.
- RpcWorker.DbReinitClearsContexts: the user/facility lookup is a fixed function of the context id for the whole run, so neither clear-all nor a sign-on dispatched in a context changes the user and facility that later audit events carry. The context store's code is not part of this model; `contexts` is the worker's own bookkeeping of the contexts it has set, and no output reads it.
- RpcWorker.Worker.OnMessage: the context store behind 'callRPC' and 'dbReinit' is abstract in the same way. A 'dbReinit' does not change what a later 'callRPC' sends.
- RpcWorker.Worker.OnMessage: the MVDM relays keep the `send` of the first message that installed them. The model has one `sent` log and does not distinguish send callbacks.
- The wire-protocol frame codec and the broker connection are not part of this model.
- MvdmClient: the Express/WebSocket set-up, `app.listen` and the static routes are left out. `JSON.stringify` of the envelope and the settings is not modelled; envelopes and settings stay structured values.
- MvdmClient.ProcessEvent: a `client.send` that throws part-way through a broadcast is not modelled. Every send is taken to succeed.
- MvdmClient.PutManagement: a request body is either absent or a key/value map. JSON values are a small datatype without arrays or objects.
- Vitals `describe` and `remove` (services/vitals/vitalsService.js:99-105, 205-212) forward to the store and emit an event. They carry no logic of their own and are not modelled.
- VitalsService.VitalsService.Create: `toPointer` and `toDateTime` belong to the abstract service base class, which is not part of this model. The pointer and date-time fields are copied unchanged rather than converted.
- VitalsService.WindowBounds: dates are integer milliseconds. The `moment` parsing of 1900-01-01 is taken at UTC (-2208988800000), and unparsable dates (NaN, which fails every comparison) are not modelled.
- VitalsService.SelectMostRecent: labels come out in insertion order. JavaScript's `Object.keys` lists integer-like keys first, in numeric order, and treats inherited names such as `constructor` as present; neither quirk is modelled.
- VitalsService.VitalsService.List: the store's `list` call is a function of the patient id; a store that changes between calls is not modelled.

## Findings

| source | as written | input that shows it | evidently intended | confidence | as-written member | corrected member |
|---|---|---|---|---|---|---|
| rpcNodeOnlyServer/mvdmClient.js:94 | The loop condition of `handleSocketClose` is `clients.length`, which stays truthy while the list is non-empty. The loop stops only when it finds `ws`. | clients = [socket 1], closing socket 2: the index runs past the end and the loop never stops | Loop while `i < clients.length`; remove the first occurrence of `ws` if any, else leave the list unchanged | not executed | MvdmClient.CloseAsWrittenCounterexample | MvdmClient.HandleSocketClose |

# Counter accessory over Bluetooth LE: the two controllers

The system is a pair of iOS apps built around one Bluetooth LE "counter" accessory.
The accessory app (`MyAccessory`) plays the peripheral role. It publishes one primary
service with one readable, writable and notifiable counter characteristic, and it
advertises under the name "Itsuki's Counter". The demo app (`AccessorySetupKitDemo`)
pairs with the accessory, then plays the central role. It retrieves the paired peripheral
by identifier, connects, discovers the counter service and characteristic, and subscribes
to and reads the counter. It writes new values with response and re-reads after a
write when notifications are off.

This project models the two controllers that do all of this:

- `BluetoothCentralManager` (module `CentralManager`) holds:
  - the target identifier and an optional handle to the peripheral;
  - the fields the handle's observer derives: connection state, "characteristic found" flag and decoded count;
  - the radio state, and whether a platform manager exists;
  - the stream of reported errors.
- `BluetoothPeripheralManager` (module `PeripheralManager`) holds:
  - the count, whose observer tries to push each new value to subscribers;
  - the subscriber list, de-duplicated on subscription, and its published length;
  - the advertising toggle, whose observer starts or stops advertising and rolls back on failure;
  - the last error, the radio state, and the "service registered" flag.

The platform (CoreBluetooth) is modelled abstractly in module `Platform`:
- Radio states and connection states are enums.
- Peripherals, services and characteristics are value records of what discovery has filled in.
- Every call a controller makes into the platform is appended to a `requests` trace.

Platform answers are method parameters. These are the peripherals `retrievePeripherals`
returns, the transmit-queue answer of `updateValue`, and every delegate callback's arguments.

The integer codec (`Int.data` / `Int.fromData`) is a pair of functions passed to each
constructor. Nothing is assumed about it.

Each class exposes its fields as one ghost `State()` value. Every method states its
whole new state as a function of the old one. Swift's `didSet` observers are modelled as follows:
- The effect of assigning the handle is the function `Assigned`.
- The effect of assigning `count` or `isAdvertising` is the method `SetCount` or `SetAdvertising`.
- The class is `@Observable`, so the assignment that restores the old value inside the `isAdvertising` observer goes through the observed setter and runs the observer again.
  - For a rollback to `false`, the re-run stops advertising. The start failed because the manager or the radio was missing, so that stop issues nothing.
  - For a failed start while the toggle is already on, the re-run starts again, fails again and restores `true` again, without end.
  - `SetAdvertising` models the intended behaviour, one rollback (`Advertised`). `ObservedAssignment` models the re-running observer as written (see "## Findings").
- `didAdd`'s `isAdvertising = false` does run the observer, so it stops advertising.

Module `Scenarios` drives both classes through the flows the apps perform, using their contracts only:
- pairing, retrieval and connection;
- discovery, subscription and the first read;
- write then re-read;
- radio loss;
- advertising with the radio off;
- split writes and a retry with a full queue;
- repeated subscription and unsubscription.

## Model

Paths are relative to the repository root.

| member | source | states |
|---|---|---|
| Platform.FirstWhere | AccessorySetupKitDemo/Managers/BluetoothCentralManager.swift:74-80 | `first(where:)`: none exactly when no element satisfies the predicate; otherwise an element of the list that satisfies it and that no earlier element does |
| CentralManager.CounterService | AccessorySetupKitDemo/Managers/BluetoothCentralManager.swift:74-76 | the counter service is a discovered service with the counter service UUID; it is absent exactly when there is no handle, services are undiscovered, or none has that UUID |
| CentralManager.CounterCharacteristic | AccessorySetupKitDemo/Managers/BluetoothCentralManager.swift:78-80 | the counter characteristic belongs to the counter service and has the counter UUID; absent exactly when the service or its characteristics are missing or none matches |
| CentralManager.FinishDiscoveringService | AccessorySetupKitDemo/Managers/BluetoothCentralManager.swift:66-68 | definition, no contract: the handle carries a services list |
| CentralManager.FinishDiscoveringCharacteristic | AccessorySetupKitDemo/Managers/BluetoothCentralManager.swift:70-72 | definition, no contract: the counter service carries a characteristics list |
| CentralManager.Assigned | AccessorySetupKitDemo/Managers/BluetoothCentralManager.swift:51-72 | the handle observer: the handle becomes the new value; only state, flag and count change besides; no handle means disconnected and count 0; the flag changes only once both discovery phases have finished, and then it says whether the counter characteristic exists; the count is the decoded value, or 0 when there is no value or it does not decode |
| CentralManager.Updated | AccessorySetupKitDemo/Managers/BluetoothCentralManager.swift:209-213 | target, radio, manager, errors and platform calls never change; the handle changes only to the reported peripheral, and only when that peripheral is the target; in that case the observer's effect (`Assigned`) follows, otherwise nothing changes |
| CentralManager.NotifyOffCharacteristics | AccessorySetupKitDemo/Managers/BluetoothCentralManager.swift:198-200 | one notify-off request per characteristic, position by position |
| CentralManager.NotifyOffServices | AccessorySetupKitDemo/Managers/BluetoothCentralManager.swift:197-201 | definition, no contract: the notify-off requests of every service, in order (its meaning is `NotifyOffServicesCovers`) |
| CentralManager.ConnectAttempt | AccessorySetupKitDemo/Managers/BluetoothCentralManager.swift:247 | definition, no contract: `try? connectPeripheral(p)`, one connect request when the radio is on and a manager exists, nothing otherwise |
| CentralManager.NotifyOffServicesCovers | AccessorySetupKitDemo/Managers/BluetoothCentralManager.swift:197-201 | a request is among the teardown's notify-off requests exactly when it turns off some discovered characteristic of some discovered service |
| CentralManager.TeardownRequests | AccessorySetupKitDemo/Managers/BluetoothCentralManager.swift:194-205 | teardown always ends in a cancel, in every connection state; before it, notify-off for all characteristics while connected and nothing otherwise |
| CentralManager.NotifyOffRequests | AccessorySetupKitDemo/Managers/BluetoothCentralManager.swift:196-202 | the nested loops issue exactly the notify-off sequence over services, then characteristics, in order |
| CentralManager.BluetoothCentralManager.constructor | AccessorySetupKitDemo/Managers/BluetoothCentralManager.swift:37-101 | initial state: no target, disconnected, flag true, count 0, no handle, radio off, no manager, no errors, no platform calls |
| CentralManager.BluetoothCentralManager.SetCounterPeripheral | AccessorySetupKitDemo/Managers/BluetoothCentralManager.swift:51-64 | assignment to the handle has exactly the observer's effect (`Assigned`) |
| CentralManager.BluetoothCentralManager.SetCounterAccessoryBluetoothId | AccessorySetupKitDemo/Managers/BluetoothCentralManager.swift:37 | the target id changes and nothing else |
| CentralManager.BluetoothCentralManager.InitCBCentralManager | AccessorySetupKitDemo/Managers/BluetoothCentralManager.swift:106-117 | a second init does nothing; the first creates one manager with the power alert on |
| CentralManager.BluetoothCentralManager.DeinitCBCentralManager | AccessorySetupKitDemo/Managers/BluetoothCentralManager.swift:119-123 | manager, handle (through its observer) and target id are all cleared |
| CentralManager.BluetoothCentralManager.RetrieveCounterPeripheral | AccessorySetupKitDemo/Managers/BluetoothCentralManager.swift:125-133 | fails with bluetoothNotAvailable and no change unless the radio is on; a no-op without a target or when the handle already has the target's id; otherwise one lookup by the target id, and the first answer (or none without a manager) assigned through the observer |
| CentralManager.BluetoothCentralManager.ConnectPeripheral | AccessorySetupKitDemo/Managers/BluetoothCentralManager.swift:174-184 | radio is checked before manager; succeeds exactly when both hold, and then issues one connect with auto-reconnect |
| CentralManager.BluetoothCentralManager.ConnectCounterPeripheral | AccessorySetupKitDemo/Managers/BluetoothCentralManager.swift:135-142 | handle, then radio, then manager; failure changes nothing; success issues one connect and shows `.connecting` |
| CentralManager.BluetoothCentralManager.DiscoverCounterCharacteristic | AccessorySetupKitDemo/Managers/BluetoothCentralManager.swift:144-150 | without the counter service it fails with counterPeripheralNotDiscovered and changes nothing; otherwise one discovery request for the counter characteristic on that service |
| CentralManager.BluetoothCentralManager.WriteValue | AccessorySetupKitDemo/Managers/BluetoothCentralManager.swift:186-192 | fails with no change unless the radio is on; otherwise exactly one write request |
| CentralManager.BluetoothCentralManager.SetCount | AccessorySetupKitDemo/Managers/BluetoothCentralManager.swift:152-162 | handle, then characteristic, then radio, each with its own error and no change; success is exactly one with-response write of the encoded value to the counter characteristic |
| CentralManager.BluetoothCentralManager.DisconnectPeripheral | AccessorySetupKitDemo/Managers/BluetoothCentralManager.swift:194-207 | nothing without a manager; otherwise exactly the teardown requests and no state change (the handle waits for the callback) |
| CentralManager.BluetoothCentralManager.DisconnectCounterPeripheral | AccessorySetupKitDemo/Managers/BluetoothCentralManager.swift:165-168 | nothing without a handle or a manager; otherwise the teardown of the current handle |
| CentralManager.BluetoothCentralManager.UpdatePeripheral | AccessorySetupKitDemo/Managers/BluetoothCentralManager.swift:209-213 | exactly `Updated`: only the target's peripheral is adopted |
| CentralManager.BluetoothCentralManager.DidUpdateState | AccessorySetupKitDemo/Managers/BluetoothCentralManager.swift:82-89 | the radio state is recorded; only a change from poweredOn to poweredOff also clears handle (through its observer) and target |
| CentralManager.BluetoothCentralManager.DidConnect | AccessorySetupKitDemo/Managers/BluetoothCentralManager.swift:225-236 | a connect from a non-target changes nothing; the target is adopted and asked for the counter service |
| CentralManager.BluetoothCentralManager.DidDisconnectPeripheral | AccessorySetupKitDemo/Managers/BluetoothCentralManager.swift:238-251 | the handle is updated; an error is reported as failToDisconnect and, unless the platform is reconnecting, one reconnect is attempted with its error swallowed |
| CentralManager.BluetoothCentralManager.DidFailToConnect | AccessorySetupKitDemo/Managers/BluetoothCentralManager.swift:253-262 | an error is reported as failToConnect, then the teardown runs, then the handle is updated, in that order |
| CentralManager.BluetoothCentralManager.DidModifyServices | AccessorySetupKitDemo/Managers/BluetoothCentralManager.swift:269-272 | exactly `Updated` |
| CentralManager.BluetoothCentralManager.DidDiscoverServices | AccessorySetupKitDemo/Managers/BluetoothCentralManager.swift:278-293 | after the update: an error is reported as failToDiscoverService and stops; otherwise a missing counter service is reported as counterPeripheralNotDiscovered, and a present one gets one characteristic discovery request |
| CentralManager.BluetoothCentralManager.DidDiscoverCharacteristics | AccessorySetupKitDemo/Managers/BluetoothCentralManager.swift:295-308 | after the update: an error is reported and stops; no counter characteristic means nothing more; otherwise subscribe, then read, in that order |
| CentralManager.BluetoothCentralManager.DidUpdateNotificationState | AccessorySetupKitDemo/Managers/BluetoothCentralManager.swift:310-317 | after the update, an error is reported as failToDiscoverCharacteristic; nothing else |
| CentralManager.BluetoothCentralManager.DidUpdateValue | AccessorySetupKitDemo/Managers/BluetoothCentralManager.swift:319-328 | the new value reaches the count through the update; an error is reported as failToDiscoverCharacteristic |
| CentralManager.BluetoothCentralManager.DidWriteValue | AccessorySetupKitDemo/Managers/BluetoothCentralManager.swift:330-336 | exactly one follow-up read when the counter characteristic is known and not notifying, none otherwise; errors are ignored |
| PeripheralManager.HasCentral | MyAccessory/Managers/BluetoothPeripheralManager.swift:205 | definition, no contract: some entry has the identifier (`contains(where:)`) |
| PeripheralManager.WithoutCentral | MyAccessory/Managers/BluetoothPeripheralManager.swift:210-214 | removal by identifier: no entry with that identifier remains, every other entry stays, nothing is added |
| PeripheralManager.WithoutCentralDistributes | MyAccessory/Managers/BluetoothPeripheralManager.swift:212 | removal keeps the order of the remaining entries: it distributes over concatenation |
| PeripheralManager.WithoutAbsentCentral | MyAccessory/Managers/BluetoothPeripheralManager.swift:212 | removing an identifier that is not listed leaves the list unchanged |
| PeripheralManager.WithoutCentralKeepsUnique | MyAccessory/Managers/BluetoothPeripheralManager.swift:210-214 | removal never introduces a repeated identifier |
| PeripheralManager.RestoredCharacteristics | MyAccessory/Managers/BluetoothPeripheralManager.swift:198 | definition, no contract: the characteristics of the restored services, flattened |
| PeripheralManager.RestoredCentrals | MyAccessory/Managers/BluetoothPeripheralManager.swift:196-200 | definition, no contract: the subscribers of the restored mutable characteristics, flattened (its meaning is `RestoredCentralsMembership`) |
| PeripheralManager.FlattenPresent | MyAccessory/Managers/BluetoothPeripheralManager.swift:198-200 | the nil-filter then flatMap keeps exactly the elements of the present lists |
| PeripheralManager.MutableOnly | MyAccessory/Managers/BluetoothPeripheralManager.swift:199 | the cast filter keeps exactly the mutable characteristics |
| PeripheralManager.RestoredCentralsMembership | MyAccessory/Managers/BluetoothPeripheralManager.swift:195-201 | a central is restored exactly when some mutable characteristic of some restored service lists it as subscribed |
| PeripheralManager.RestoreMayRepeatCentral | MyAccessory/Managers/BluetoothPeripheralManager.swift:200 | restoration does not de-duplicate: a central listed by two restored services appears twice, so identifiers are not unique |
| PeripheralManager.DropFirst | MyAccessory/Managers/BluetoothPeripheralManager.swift:240 | `dropFirst(offset)`: the bytes after the offset, or none when the offset is past the end |
| PeripheralManager.Payload | MyAccessory/Managers/BluetoothPeripheralManager.swift:239-240 | definition, no contract: a request's value after its offset, nothing without a value |
| PeripheralManager.Coalesced | MyAccessory/Managers/BluetoothPeripheralManager.swift:236-242 | definition, no contract: every payload, in request order (its meaning is `CoalescedAppend` and `CoalesceWriteRequests`) |
| PeripheralManager.CoalescedAppend | MyAccessory/Managers/BluetoothPeripheralManager.swift:236-242 | the write buffer of two batches is the concatenation of their buffers |
| PeripheralManager.CoalesceWriteRequests | MyAccessory/Managers/BluetoothPeripheralManager.swift:236-242 | the loop builds exactly the concatenation of every valued request's payload after its offset, in request order, skipping requests without a value |
| PeripheralManager.Pushed | MyAccessory/Managers/BluetoothPeripheralManager.swift:139-154 | definition, no contract: one updateValue request when the radio is on and a manager exists, nothing otherwise |
| PeripheralManager.AddServiceRequests | MyAccessory/Managers/BluetoothPeripheralManager.swift:133 | definition, no contract: how many add requests for the counter service were made |
| PeripheralManager.RegisteredAtMostOnce | MyAccessory/Managers/BluetoothPeripheralManager.swift:132-134 | definition, no contract: at most one add request, and none before `serviceAdded` is set |
| PeripheralManager.ServiceRegistered | MyAccessory/Managers/BluetoothPeripheralManager.swift:130-136 | nothing changes once the service is registered or while the radio is not on; with the radio on the flag is set; besides the flag, only one add request (when a manager exists) is appended; the at-most-once registration invariant is kept |
| PeripheralManager.AdvertisingStopped | MyAccessory/Managers/BluetoothPeripheralManager.swift:115-128 | definition, no contract: one stop request when the radio is on and a manager exists, nothing otherwise |
| PeripheralManager.AdvertisementRequest | MyAccessory/Managers/BluetoothPeripheralManager.swift:75-80 | definition, no contract: the advertisement carries the local name and the service UUID |
| PeripheralManager.BluetoothPeripheralManager.Valid | MyAccessory/Managers/BluetoothPeripheralManager.swift:40-44 | definition, no contract: the published count equals the list length, and `RegisteredAtMostOnce` holds |
| PeripheralManager.StartFailure | MyAccessory/Managers/BluetoothPeripheralManager.swift:99-105 | definition, no contract: managerNotInitialized before bluetoothNotAvailable, none when both are present |
| PeripheralManager.AdvertisingStarted | MyAccessory/Managers/BluetoothPeripheralManager.swift:107-109 | definition, no contract: register the service, then start advertising |
| PeripheralManager.Advertised | MyAccessory/Managers/BluetoothPeripheralManager.swift:46-56 | the intended observer: after a failed start the toggle keeps its previous value, the error is recorded and nothing else changes; otherwise the toggle takes the new value; a successful start leaves the service registered |
| PeripheralManager.ObservedAssignment | MyAccessory/Managers/BluetoothPeripheralManager.swift:46-56 | definition, no contract: the observer as written under `@Observable`, re-run by the rollback at line 52, with a bound on re-runs |
| PeripheralManager.ObservedRestartLoops | MyAccessory/Managers/BluetoothPeripheralManager.swift:49-52 | assigning `true` while the toggle is on and the start fails never ends, for any bound |
| PeripheralManager.ObservedRestartAfterRadioLoss | MyAccessory/Managers/BluetoothPeripheralManager.swift:46-56 | the concrete case: toggle on, radio off, `true` assigned again; the as-written observer never ends, the intended one records bluetoothNotAvailable |
| PeripheralManager.ObservedAgreesWhenItEnds | MyAccessory/Managers/BluetoothPeripheralManager.swift:46-56 | whenever the as-written observer ends, it ends in the intended state |
| PeripheralManager.BluetoothPeripheralManager.constructor | MyAccessory/Managers/BluetoothPeripheralManager.swift:82-94 | the manager is created at once with the power alert; count 0, no subscribers, not advertising, no error, radio off, service not registered |
| PeripheralManager.BluetoothPeripheralManager.UpdateCharacteristicValue | MyAccessory/Managers/BluetoothPeripheralManager.swift:139-154 | radio, then manager, then a full queue, each with its own error; one updateValue call exactly when the radio is on and a manager exists; a full queue fails with failToUpdateCharacteristic; the registration invariant is kept |
| PeripheralManager.BluetoothPeripheralManager.SetCount | MyAccessory/Managers/BluetoothPeripheralManager.swift:27-33 | every assignment to the count attempts a push of its encoding (a call only with radio and manager), errors swallowed |
| PeripheralManager.BluetoothPeripheralManager.AddService | MyAccessory/Managers/BluetoothPeripheralManager.swift:130-136 | exactly `ServiceRegistered`: registration once, and only while the radio is on; the service is never handed to the platform twice (`Valid`) |
| PeripheralManager.BluetoothPeripheralManager.StartAdvertising | MyAccessory/Managers/BluetoothPeripheralManager.swift:96-112 | manager is checked before radio, each failure with no change; success registers the service, then advertises the name and the service UUID |
| PeripheralManager.BluetoothPeripheralManager.StopAdvertising | MyAccessory/Managers/BluetoothPeripheralManager.swift:115-128 | a stop request only while the radio is on |
| PeripheralManager.BluetoothPeripheralManager.SetAdvertising | MyAccessory/Managers/BluetoothPeripheralManager.swift:46-56 | turning on starts advertising; if starting fails, the error is recorded and the toggle goes back to its previous value once; turning off stops advertising; the whole effect is `Advertised` |
| PeripheralManager.BluetoothPeripheralManager.DidUpdateState | MyAccessory/Managers/BluetoothPeripheralManager.swift:164-168 | the radio state is recorded, then registration is attempted |
| PeripheralManager.BluetoothPeripheralManager.DidStartAdvertising | MyAccessory/Managers/BluetoothPeripheralManager.swift:170-175 | an error is recorded as failToStartAdvertising; otherwise nothing changes |
| PeripheralManager.BluetoothPeripheralManager.DidAdd | MyAccessory/Managers/BluetoothPeripheralManager.swift:177-183 | a failed registration turns advertising off, which stops it through the toggle's observer, and records failToStartAdvertising |
| PeripheralManager.BluetoothPeripheralManager.IsReadyToUpdateSubscribers | MyAccessory/Managers/BluetoothPeripheralManager.swift:186-193 | the retry pushes the current (latest) count; a failure is recorded as the error |
| PeripheralManager.BluetoothPeripheralManager.WillRestoreState | MyAccessory/Managers/BluetoothPeripheralManager.swift:195-201 | the subscriber list becomes the restored subscribers, repeated entries included, and its published length follows |
| PeripheralManager.BluetoothPeripheralManager.DidSubscribe | MyAccessory/Managers/BluetoothPeripheralManager.swift:204-208 | a new identifier on the counter characteristic is appended once; a known one or another characteristic changes nothing; afterwards the central is listed; unique identifiers stay unique |
| PeripheralManager.BluetoothPeripheralManager.DidUnsubscribe | MyAccessory/Managers/BluetoothPeripheralManager.swift:210-214 | on the counter characteristic every entry with the identifier is removed and the count follows; other characteristics change nothing; unique identifiers stay unique |
| PeripheralManager.BluetoothPeripheralManager.DidReceiveRead | MyAccessory/Managers/BluetoothPeripheralManager.swift:220-229 | a counter read is answered with the encoded count, any other read is answered unchanged; the response is always success |
| PeripheralManager.BluetoothPeripheralManager.DidReceiveWrite | MyAccessory/Managers/BluetoothPeripheralManager.swift:232-259 | an empty batch does nothing; otherwise the count changes (and is pushed) exactly when the first request is for the counter and the coalesced buffer decodes, and only the first request gets a success response |

## Left out

- The CoreBluetooth framework is not modelled: no radio, no link layer, no GATT server. Its answers are parameters and its calls are entries in a trace.
- `Int.data` / `Int.fromData` are uninterpreted functions. No encode/decode round trip is claimed. The file that defines them is not part of this model.
- `AccessorySetupKitDemo/Managers/AccessoryManager.swift` (pairing), the SwiftUI views and the app entry points are not part of this model. The values of `CounterAccessory.swift` appear as constants in module `CounterAccessory`.
- The error's automatic reset after two seconds is not modelled, because it is a timer. The same goes for `isIdleTimerDisabled`, `print`, and the continuation mechanics of the error stream. The stream is an append-only sequence.
- Assigning `peripheral.delegate = self` in `didConnect` is not modelled, because it only wires callbacks.
- The handle is a value, not a shared reference. The model sees the peripheral as last reported, not the live object.
- Callback arguments the source never reads are omitted: the service and characteristic arguments, the timestamp and the invalidated services.
- The same holds for the arriving characteristic of `didUpdateValueFor`: the new value reaches the model through the updated peripheral.
- CentralManager.BluetoothCentralManager.DidUpdateState: the handle and target are cleared only on a change from poweredOn to poweredOff, as the code does. Every other transition (to resetting, unauthorized, unsupported or unknown) leaves them in place.
- CentralManager.TeardownRequests: the guard before the cancel holds in every connection state, as written. So a cancel is requested even for a peripheral already disconnected.
- CentralManager.BluetoothCentralManager.DidUpdateNotificationState and DidUpdateValue report their errors as failToDiscoverCharacteristic, as the code does. `failToUpdateNotify` and `failToUpdateValue` exist only as error kinds.
- PeripheralManager.BluetoothPeripheralManager.SetAdvertising: models one rollback. The source re-runs the observer on the rollback, and does not terminate for a failed start while the toggle is on. That case is recorded here as one error, and the as-written behaviour is `ObservedAssignment` (see "## Findings"). The macro expansion behind this is not part of this model.
- Platform: identifiers (`Uuid`) are canonical strings, one spelling per UUID. CBUUID compares the 128-bit value, so upper- and lower-case spellings of one UUID are equal there. In the model every UUID is written in its single upper-case form, as `CounterAccessory` declares them.
- PeripheralManager.BluetoothPeripheralManager.WillRestoreState: restoration concatenates the subscribers of every restored characteristic without de-duplicating (`RestoreMayRepeatCentral`), as the code does. So unique identifiers are not a class invariant. `DidSubscribe` and `DidUnsubscribe` only preserve uniqueness when it already holds.
- PeripheralManager.BluetoothPeripheralManager: the platform manager is created in `init`, so its managerNotInitialized paths are modelled but cannot be reached from a constructed object.
- PeripheralManager.DropFirst: the write offset is applied to each request's own value as the code does, not as an absolute position in the attribute.
- Integer width: `count` is an unbounded integer. The Swift `Int` overflow cannot arise, because the controllers never do arithmetic on it.

## Findings

| source | as written | input that shows it | evidently intended | confidence | as-written member | corrected member |
|---|---|---|---|---|---|---|
| MyAccessory/Managers/BluetoothPeripheralManager.swift:46-56 | under `@Observable`, `self.isAdvertising = oldValue` at line 52 goes through the observed setter and runs the observer again | advertising on, the radio goes off, then `isAdvertising = true` is assigned again: every re-run fails with bluetoothNotAvailable and restores `true` | one rollback to the previous value, with the error recorded | medium, not executed; rests on how the Observation macro expands a stored property with `didSet` | PeripheralManager.ObservedRestartAfterRadioLoss | PeripheralManager.Advertised |

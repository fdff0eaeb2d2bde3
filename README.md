# BLE scanner demo: verified model of its bookkeeping and decision logic

This project models, in Dafny, the parts of an Android BLE demo app (built on Nordic's
Kotlin BLE client library) that are bookkeeping or decisions rather than UI:

- **Scanner view model** (`Scanner.ScannerViewModel`, `ScanList`): the discovered-peripherals
  list that grows only by appending peripherals it does not hold yet, the `isScanning` flag
  raised when a scan starts and lowered when it completes, the global `connected` flag, and
  the registry of per-peripheral connection scopes. A tap on a peripheral toggles: disconnect
  inside its scope if it has one, otherwise create a scope for it and connect. The scope is
  removed and cancelled when the connect fails or when the peripheral reports `Disconnected`.
- **Discovery walk** (`Discovery`): each emission of a peripheral's services flow bumps a pass
  counter, `null` included; a service list starts a pass tagged with that counter. The pass
  reads every characteristic and then each of its descriptors, with per-item failure
  isolation, then tries to subscribe to every characteristic. A failed subscription is an
  anomaly only on a subscribable characteristic. Last, the LED Button service is looked up
  and the 9-write blink job (values `i % 2`) is launched.
- **Single-peripheral repository** (`Repository`): one field `current: Option<P>` with the
  toggle decision, the connect completion (success holds the peripheral, failure clears the
  field) and the disconnect completion (always clears, a no-op when nothing is held), plus the
  `observeServices` stream, which follows the latest non-null peripheral.
- **Permissions and the scan button** (`Permissions`): the required permission list per SDK
  level, the all-granted check, the three-way classification of a permission result into
  `BlePermissionState`, the callback that stores it and requests a scan only on `Granted`, and
  the scan button's start/stop/request decision.

Peripherals are a type parameter compared by equality. The library's scan, connect, read,
subscribe and write calls become outcome parameters (booleans in the calls or fields of the
capability tree). Coroutine launches are read as ordered events: each launched coroutine's
completion is a separate method call. A connection scope (a `CoroutineScope` object) is named
by a serial number handed out when it is created, and cancelling it records that number.

Files: `common.dfy` (Option, connection states), `scan_list.dfy`, `scanner_view_model.dfy`,
`discovery.dfy`, `ble_repository.dfy`, `permissions.dfy`.

Facts about the code that the model keeps:
- The code reads every characteristic, whatever its readable flag. It attempts a subscription
  on every characteristic and suppresses the report for non-subscribable ones.
- The "permanently denied" test runs over the *required* permission list. It does not look
  at the keys of the result map.
- The scan list dedups with the list's own `contains`, so the same peripheral is never added
  twice, across scans too.
- `observeServices` drops a null peripheral before `flatMapLatest`. A field that goes null
  therefore does not stop the services flow of the peripheral held before it.
- One scope per peripheral is a property of the map type. The registry invariant
  (`ScannerViewModel.Valid`) says that live scopes are distinct, were created, and were never
  cancelled by the view model's own `remove(...)?.cancel()` calls. A scope that cancels
  itself through a failure inside it is not modelled (see "Left out").

## Model

| member | source | states |
|---|---|---|
| ScanList.AddIfNew | src/main/java/com/wulala/demo01/scanner/ScannerViewModel.kt:97-101 | one sighting keeps the list as a prefix, adds at most one entry, adds exactly when the peripheral was absent, and preserves "no duplicates" |
| ScanList.AbsorbExtends | src/main/java/com/wulala/demo01/scanner/ScannerViewModel.kt:95-102 | after a scan the old list is a prefix of the new one (nothing reordered or dropped) |
| ScanList.AbsorbMembers | src/main/java/com/wulala/demo01/scanner/ScannerViewModel.kt:95-102 | after a scan the list holds exactly the old entries plus the peripherals sighted |
| ScanList.AbsorbNoDuplicates | src/main/java/com/wulala/demo01/scanner/ScannerViewModel.kt:97-101 | a list without duplicates stays without duplicates through any run of sightings |
| ScanList.AbsorbCount | src/main/java/com/wulala/demo01/scanner/ScannerViewModel.kt:95-102 | dedup law: the list grows by the number of distinct sighted peripherals it did not already hold |
| Scanner.ScannerViewModel.constructor | src/main/java/com/wulala/demo01/scanner/ScannerViewModel.kt:52-76 | the list starts as exactly one preview peripheral; not scanning, not connected, no scopes |
| Scanner.ScannerViewModel.OnScanStarted | src/main/java/com/wulala/demo01/scanner/ScannerViewModel.kt:92-94 | the scan's start raises `isScanning` and changes nothing else |
| Scanner.ScannerViewModel.OnSighting | src/main/java/com/wulala/demo01/scanner/ScannerViewModel.kt:96-102 | a sighted peripheral is appended at the end exactly when the list does not contain it; the invariant (no duplicates) is kept |
| Scanner.ScannerViewModel.OnScanCompleted | src/main/java/com/wulala/demo01/scanner/ScannerViewModel.kt:111-116 | completion, also after a scan error, lowers `isScanning` and changes nothing else |
| Scanner.ScannerViewModel.RunScan | src/main/java/com/wulala/demo01/scanner/ScannerViewModel.kt:81-118 | a whole scan leaves the list equal to the dedup fold of its sightings over the old list and `isScanning` false; scopes and `connected` untouched |
| Scanner.ScannerViewModel.RemoveScope | src/main/java/com/wulala/demo01/scanner/ScannerViewModel.kt:157 | removes the peripheral's scope and only that one, cancels it, and reports which scope that was (none when absent) |
| Scanner.ScannerViewModel.OnPeripheralSelected | src/main/java/com/wulala/demo01/scanner/ScannerViewModel.kt:124-162 | with a scope: disconnect in that scope, registry unchanged; without: exactly one new, never-used, uncancelled scope is registered for this peripheral and the connect is launched in it |
| Scanner.ScannerViewModel.OnConnectResult | src/main/java/com/wulala/demo01/scanner/ScannerViewModel.kt:141-158 | a failed connect removes and cancels that peripheral's scope only; a successful one changes nothing in the registry |
| Scanner.ScannerViewModel.OnStateChanged | src/main/java/com/wulala/demo01/scanner/ScannerViewModel.kt:400-435 | `Connected` sets the flag, keeps the map, launches set-up only when a scope exists; `Disconnected` clears the flag and removes and cancels the scope; other states change nothing |
| Discovery.FirstWhere | src/main/java/com/wulala/demo01/scanner/ScannerViewModel.kt:363-368 | `firstOrNull`: the index returned matches and no earlier element does; none means no element matches |
| Discovery.ReadAll | src/main/java/com/wulala/demo01/scanner/ScannerViewModel.kt:299-318 | the nested read loops produce exactly the read phase of the pass |
| Discovery.SubscribeAll | src/main/java/com/wulala/demo01/scanner/ScannerViewModel.kt:320-358 | the nested subscription loops produce exactly the subscription phase of the pass |
| Discovery.BlinkLed | src/main/java/com/wulala/demo01/scanner/ScannerViewModel.kt:377-391 | at most 9 writes, the i-th writing `i % 2`; all earlier writes succeeded; it stops exactly at the first failed write, and writes all 9 when none fails |
| Discovery.ServiceObserver.constructor | src/main/java/com/wulala/demo01/scanner/ScannerViewModel.kt:285 | the pass counter starts at 0 with nothing done |
| Discovery.ServiceObserver.OnServices | src/main/java/com/wulala/demo01/scanner/ScannerViewModel.kt:287-397 | every emission, null included, increments the counter by one; a null one does nothing else; a service list runs one full pass tagged with the new counter; pass indices in the trace never decrease |
| Discovery.PassTraceTagged | src/main/java/com/wulala/demo01/scanner/ScannerViewModel.kt:294-358 | every operation of a pass carries the pass's fixed index, and no read follows a non-read (all reads before the first subscription) |
| Discovery.ReadPhaseTagged | src/main/java/com/wulala/demo01/scanner/ScannerViewModel.kt:299-318 | the read phase consists only of reads tagged with the pass index |
| Discovery.SubscribePhaseTagged | src/main/java/com/wulala/demo01/scanner/ScannerViewModel.kt:320-358 | the subscription phase consists only of subscription attempts tagged with the pass index |
| Discovery.ReadPhaseLength | src/main/java/com/wulala/demo01/scanner/ScannerViewModel.kt:299-318 | the read phase has one entry per characteristic and per descriptor, whatever the outcomes |
| Discovery.SubscribePhaseLength | src/main/java/com/wulala/demo01/scanner/ScannerViewModel.kt:320-358 | the subscription phase has one entry per characteristic, whatever the outcomes |
| Discovery.EveryItemRead | src/main/java/com/wulala/demo01/scanner/ScannerViewModel.kt:299-318 | failure isolation: every characteristic and every one of its descriptors is read, with its own outcome, whatever failed before |
| Discovery.EveryCharacteristicSubscribed | src/main/java/com/wulala/demo01/scanner/ScannerViewModel.kt:320-327 | every characteristic, subscribable or not, gets a subscription attempt |
| Discovery.SubscriptionOutcomes | src/main/java/com/wulala/demo01/scanner/ScannerViewModel.kt:322-356 | a subscription attempt is an anomaly iff it failed on a subscribable characteristic, an expected refusal iff it failed on a non-subscribable one, active iff it did not throw |
| Discovery.BlinkPhaseLaunches | src/main/java/com/wulala/demo01/scanner/ScannerViewModel.kt:360-392 | the blink job is launched iff the first LED Button service has an LED characteristic; the button is awaited iff it has a button characteristic |
| Repository.ReplayFollowsLatest | src/main/java/com/wulala/demo01/repo/BleRepository.kt:53-80 | after any run of completions the field holds p iff the latest completion was a successful connect to p, and is null otherwise |
| Repository.BleRepository.constructor | src/main/java/com/wulala/demo01/repo/BleRepository.kt:37 | nothing is held initially |
| Repository.BleRepository.ToggleConnection | src/main/java/com/wulala/demo01/repo/BleRepository.kt:43-51 | disconnect iff the held peripheral is the one toggled; otherwise connect to it |
| Repository.BleRepository.Connect | src/main/java/com/wulala/demo01/repo/BleRepository.kt:53-65 | success holds the connected peripheral; failure clears the field even if another was held |
| Repository.BleRepository.Disconnect | src/main/java/com/wulala/demo01/repo/BleRepository.kt:67-80 | targets the held peripheral (none: no transport call) and always ends with the field null, whether or not the transport threw |
| Repository.BleRepository.ToggleAndAwait | src/main/java/com/wulala/demo01/repo/BleRepository.kt:43-80 | a toggle followed by the coroutine it launched: disconnect iff the held peripheral was p, and then nothing is held; otherwise it ends holding p iff the connect succeeded, and null if it failed |
| Repository.NonNull | src/main/java/com/wulala/demo01/repo/BleRepository.kt:90 | `filterNotNull` keeps exactly the non-null values (membership) and never lengthens the stream |
| Repository.NonNullAppend | src/main/java/com/wulala/demo01/repo/BleRepository.kt:90 | `filterNotNull` keeps order and multiplicity: it distributes over concatenation, keeps a non-null value and drops a null |
| Repository.ObserveServices | src/main/java/com/wulala/demo01/repo/BleRepository.kt:86-92 | a service list is yielded iff it is non-null and was emitted by the followed flow once the field had held some peripheral, also while the field is null again |
| Repository.ObserveServicesExtend | src/main/java/com/wulala/demo01/repo/BleRepository.kt:86-92 | the stream keeps order: a new stretch appends its non-null lists at the end once any stretch so far held a peripheral, and appends nothing before that |
| Repository.ObserveServicesQuietUntilHeld | src/main/java/com/wulala/demo01/repo/BleRepository.kt:87-88 | before the field first holds a peripheral the stream yields nothing |
| Repository.NullFieldKeepsFollowing | src/main/java/com/wulala/demo01/repo/BleRepository.kt:87-91 | after A is held and the field goes null, a list L from A's services flow is still yielded |
| Permissions.RequiredBlePermissions | src/main/java/com/wulala/demo01/scanner/ScannerScreen.kt:192-204 | SCAN and CONNECT from SDK 31 (S) on, fine location before |
| Permissions.HasBlePermissions | src/main/java/com/wulala/demo01/scanner/ScannerScreen.kt:44-48 | true iff every requested permission is granted; vacuously true for none |
| Permissions.AnyWithoutRationale | src/main/java/com/wulala/demo01/scanner/ScannerScreen.kt:71-73 | true iff some required permission has no rationale to show |
| Permissions.Classify | src/main/java/com/wulala/demo01/scanner/ScannerScreen.kt:67-76 | Granted iff every result is granted (empty included), whatever the rationale flags; otherwise PermanentlyDenied iff some required permission lacks a rationale, else Denied |
| Permissions.OnStartScan | src/main/java/com/wulala/demo01/scanner/ScannerScreen.kt:96-103 | with permissions: start when not scanning, stop when scanning; without: only the permission request |
| Permissions.PermissionGate.constructor | src/main/java/com/wulala/demo01/scanner/ScannerScreen.kt:62 | the remembered permission state starts as Denied |
| Permissions.PermissionGate.OnPermissionResult | src/main/java/com/wulala/demo01/scanner/ScannerScreen.kt:67-81 | stores the classified state and requests a scan iff that state is Granted |

## Left out

- The Nordic library itself (`scan`, `connect`, `distinctByPeripheral`, `read`, `subscribe`, `write`, `createBond`, `removeBond`, `refreshCache`, `readRssi`): foreign code, modelled only as success/failure outcomes. The library's per-scan `distinctByPeripheral` is not modelled; the `contains` filter that follows it gives the same list.
- Coroutine scheduling and cancellation timing: launches are read as ordered events. This leaves out the 500 ms delay before a `Disconnected` scope is cancelled, the 250 ms blink delay, and the check-then-update race between `filterNot` and `_peripherals.update`. It also leaves out a second scan started while one runs, and a connect coroutine cancelled together with its scope.
- Scanner.ScannerViewModel.OnConnectResult: the observers started after a successful connect (PHY, connection parameters, services) are not registered anywhere in the model. The services observer is modelled separately as `Discovery.ServiceObserver`, one per connection.
- `onStopScanRequested` cancels the scan job. Its only effect on the modelled state is the completion, which is `OnScanCompleted`.
- `initiateConnection`, `observerPhy`, `observeConnectionParameters`, `observeBondState`, `onBondRequested`, `onRemoveBondRequested`, `onClearCacheRequested`: library calls plus logging only.
- The Direct connection options (3 s timeout, 2 retries, 1 s retry delay, 2M PHY): the retry behaviour lives inside the library.
- Discovery.BlinkPhaseLaunches: `waitForValueChange` on the button and its trigger write of 0x01 are assumed to return. In the code a failure there escapes the services collection, which runs in the connection scope (a `CoroutineScope(Dispatchers.IO)` with a plain `Job` and no exception handler). That failure cancels the whole connection scope, with its subscriptions, blink job and PHY and parameter observers. The scope stays registered in `connectionScopeMap`, and the exception goes to the uncaught-exception handler. The model does not capture this, so the claim that a registered scope is never cancelled (`ScannerViewModel.Valid`) holds only when no such failure occurs. Values read and notifications received are not modelled either; only the attempts and their outcomes are.
- Repository.ObserveServices: each stretch carries the emissions of the services flow that `flatMapLatest` follows during it. When that flow is restarted for a new peripheral, and how the peripheral state flow conflates equal values, is left to how the stretches are built. Timing between the two flows is not modelled.
- Discovery.SubscribeAll: a subscription "fails" when the `subscribe()` call itself throws. Errors delivered later through the flow's `catch` are only logged by the code and are not modelled.
- Logging (Timber), hex formatting of values, and the Android permission APIs beyond their boolean answers.
- All Compose UI, navigation routes, dependency injection modules and the empty real-time view model.

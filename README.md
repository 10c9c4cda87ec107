# WatchTweak BLE companion — a Dafny model

WatchTweak is an Android companion app for an "SG2" Bluetooth Low Energy
smartwatch. This project models its two core pieces:

- **the connection controller** in `BlueDeviceService.kt`, a foreground service.
  - It scans for a target watch address, connects and enables notifications
    on the SG2 service.
  - It turns the watch's inbound notification payloads into phone actions:
    media keys, volume steps, a "find phone" sound, and a "camera" press that
    reports an error and pushes the clock to the watch.
  - It forwards notifications from two allowed packages as SMS-reminder
    commands.
  - It reacts to connection-state changes by publishing status text and,
    for some status codes, reconnecting. The link is torn down only when the
    service is destroyed.
- **the device picker** in `DeviceScanActivity.kt`. It keeps scan results in
  a list holding one entry per device address, and returns the tapped
  device's address and name to its caller.

## Layout

| file | module | contents |
|---|---|---|
| `wrappers.dfy` | `Wrappers` | `Option` |
| `wire.dfy` | `Wire` | the byte layouts of the watch protocol and Kotlin's `toByte`; how an inbound payload is classified into reactions |
| `link.dfy` | `Link` | how a connection change is classified by `status` and `newState`; the package whitelist |
| `gatt.dfy` | `Gatt` | GATT services and handles, scan results, and the `Action` alphabet of observable effects |
| `effects.dfy` | `Effects` | specification functions, defined by recursion, that give the action sequence each operation emits, with the lemmas about them |
| `blue_device_service.dfy` | `Service` | the `BlueDeviceService` class, one method per callback or helper, each proved against the functions in `Effects` |
| `device_scan.dfy` | `DeviceScan` | the upsert of scan results and the `DeviceScanActivity` class |

### How the platform is modelled

- Every call into the Android BLE stack is one `Action` appended to the
  service's `trace` field. So are the phone-side effects: media key, volume
  step, sound, error notification and status text. The service's own flags
  and fields are updated in place, as in the source.
- The class invariant `Valid()` says that `bleScanRunning` is true exactly
  when the last scan-control call in `trace` was a start.
- A callback's "this changes nothing else" is a field-granular `modifies`
  clause.

### Behaviour of the code worth knowing

- **Status 0 never reconnects.** The `0 ->` branch of `onConnectionStateChange`
  (`BlueDeviceService.kt:251-259`) logs "Programmatically disconnected? …
  Retrying", publishes "Disconnected" and calls `reconnectBle`, so status 0
  was evidently meant to reconnect like 8, 19 and 133. But that branch
  comes after the `GATT_SUCCESS ->` branch.
  `GATT_SUCCESS` is 0, so the `0 ->` branch can never run. A status-0 change
  is dispatched on `newState` alone, and a status-0 disconnection only
  publishes "Disconnected". `Link.ClassifyConnectionChange` keeps the dead
  branch and proves that only 8, 19 and 133 reconnect.
- **Stopping while connecting leaks the connection.** The handle is stored
  only on `STATE_CONNECTED`, so a stop before that closes nothing. A later
  `STATE_CONNECTED` stores the handle even after the service was destroyed,
  and requests discovery. `Service.DestroyWhileConnecting` proves it.
- **SMS reminders are sent k·k times.** `handleNotificationEvent` calls
  `sendSMSReminder` once per SG2 service, and that call writes once per SG2
  service again. With k matching services the watch receives k·k reminder
  writes; with the usual single service it receives exactly one.
  `Effects.NotificationWritesAreReminders` and
  `Effects.NotificationSingleService` state both.
- **The date write sends the month before the day, unadjusted.** The month is
  `Calendar.MONTH`, which counts from 0. The model writes the value that is
  read, as the code does.

## Model

| member | source | states |
|---|---|---|
| Wire.ToByte | app/src/main/java/com/aidengilmartin/watchtweak/BlueDeviceService.kt:575-576 | Kotlin's `Int.toByte()`: the byte is congruent to the integer modulo 256, and an integer in 0..255 is kept unchanged |
| Wire.Decode | app/src/main/java/com/aidengilmartin/watchtweak/BlueDeviceService.kt:443-468 | a reference decoder for outbound command payloads: any payload it accepts is exactly the encoding of the command it returns |
| Wire.Encode | app/src/main/java/com/aidengilmartin/watchtweak/BlueDeviceService.kt:452-468 | the payload of each command: its command code first (0x09 time, 0x08 date, 0x07 SMS reminder, each identifying its command), then `hh mm ss` for time, `01 01 month day` for date, and `AA` for the reminder |
| Wire.TimePayload | app/src/main/java/com/aidengilmartin/watchtweak/BlueDeviceService.kt:442-458 | the time write read from the clock: the watch decodes it as a time command, and each field byte is the clock field modulo 256 |
| Wire.DatePayload | app/src/main/java/com/aidengilmartin/watchtweak/BlueDeviceService.kt:447-469 | the date write read from the clock: the watch decodes it as a date command with the month before the day, and each byte is the field modulo 256 |
| Wire.SmsReminderLayout | app/src/main/java/com/aidengilmartin/watchtweak/BlueDeviceService.kt:574-576 | with `-86.toByte()` the SMS reminder is `07 AA`, and the watch decodes it as the reminder |
| Wire.DecodeEncode | app/src/main/java/com/aidengilmartin/watchtweak/BlueDeviceService.kt:443-468 | round trip: decoding the encoding of a time, date or SMS-reminder command gives that command back |
| Wire.PayloadLayouts | app/src/main/java/com/aidengilmartin/watchtweak/BlueDeviceService.kt:443-468 | for in-range clock fields, the time payload is `09 hh mm ss` and the date payload is `08 01 01 month day` (month before day) |
| Wire.PlaybackReaction | app/src/main/java/com/aidengilmartin/watchtweak/BlueDeviceService.kt:312-367 | a playback code yields a reaction iff it is one of 0x01, 0x20, 0x10, 0x08 or 0x04; each such code has exactly one bit set; 0x01 dispatches Play when music is idle and Pause when it is active, 0x08 Next, 0x04 Previous, 0x20 steps the volume by +1 and 0x10 by −1 |
| Wire.Reactions | app/src/main/java/com/aidengilmartin/watchtweak/BlueDeviceService.kt:307-406 | classifies an inbound payload: the camera report and the time sync occur iff the payload is exactly `65 29`; a sound plays iff byte 0 is 0x61 or the payload is the camera command; a playback-class payload other than the camera command yields exactly the reaction of its code (if any); media reactions come only from the playback code; every other first byte yields nothing; at most three reactions |
| Wire.PlaybackMessage | app/src/main/java/com/aidengilmartin/watchtweak/BlueDeviceService.kt:319-366 | the payload `65 c` for each of the five playback codes c yields exactly the reaction of c |
| Wire.CameraMessage | app/src/main/java/com/aidengilmartin/watchtweak/BlueDeviceService.kt:319-406 | the payload `65 29` yields the camera error, then a sound, then a time sync, in that order (0x29 is no playback code) |
| Wire.CameraPrefixIsIgnored | app/src/main/java/com/aidengilmartin/watchtweak/BlueDeviceService.kt:385-386 | the camera command is matched by whole-content equality: a longer payload beginning `65 29` triggers nothing |
| Wire.FindPhoneIgnoresRest | app/src/main/java/com/aidengilmartin/watchtweak/BlueDeviceService.kt:371-382 | any payload whose first byte is 0x61 plays exactly one sound, whatever follows |
| Link.ClassifyConnectionChange | app/src/main/java/com/aidengilmartin/watchtweak/BlueDeviceService.kt:172-264 | reconnect iff status is 8, 19 or 133, with text "Disconnected"; the handle is stored and discovery requested iff status is 0 and the new state is CONNECTED; status 0 publishes "Connecting", "Disconnected" or "Disconnecting" for the CONNECTING, DISCONNECTED and DISCONNECTING states, and "Error (Unhandled State)" for any other state; any status other than 0, 8, 19 and 133 publishes "Error (Unhandled Status)" |
| Link.WhitelistIsExactlyTwoPackages | app/src/main/java/com/aidengilmartin/watchtweak/BlueDeviceService.kt:543-544 | a package is allowed iff it is Google Messages or Zoho Mail |
| Effects.Sg2CountPositive | app/src/main/java/com/aidengilmartin/watchtweak/BlueDeviceService.kt:434-435 | a service list holding an SG2 service at some index counts at least one SG2 service |
| Effects.PerSg2Members | app/src/main/java/com/aidengilmartin/watchtweak/BlueDeviceService.kt:434-435 | an action emitted by the per-SG2-service loop is one of the actions of the loop body |
| Effects.PerSg2Single | app/src/main/java/com/aidengilmartin/watchtweak/BlueDeviceService.kt:434-435 | with exactly one SG2 service the per-service loop emits its body exactly once |
| Effects.PerSg2PairAt | app/src/main/java/com/aidengilmartin/watchtweak/BlueDeviceService.kt:434-435 | a two-action body repeated per SG2 service places the k-th repetition at indexes 2k and 2k+1 |
| Effects.SyncDateTimeOrder | app/src/main/java/com/aidengilmartin/watchtweak/BlueDeviceService.kt:433-473 | the clock sync writes 2k commands for k SG2 services, each time write immediately followed by its date write |
| Effects.SyncDateTimeSingleService | app/src/main/java/com/aidengilmartin/watchtweak/BlueDeviceService.kt:433-473 | with one SG2 service the clock sync is exactly the time write, then the date write |
| Effects.NotificationWrites | app/src/main/java/com/aidengilmartin/watchtweak/BlueDeviceService.kt:535-584 | nothing is written without a handle or for a package outside the whitelist; otherwise k·k writes for k SG2 services |
| Effects.NotificationWritesAreReminders | app/src/main/java/com/aidengilmartin/watchtweak/BlueDeviceService.kt:535-584 | a notification from an allowed package causes k·k writes for k SG2 services, and none otherwise; every write is the SMS-reminder payload |
| Effects.NotificationSingleService | app/src/main/java/com/aidengilmartin/watchtweak/BlueDeviceService.kt:535-584 | with one SG2 service, an allowed package causes exactly one `07 AA` write and any other package causes none |
| Effects.DescriptorWrites | app/src/main/java/com/aidengilmartin/watchtweak/BlueDeviceService.kt:281-289 | one write per descriptor of the notification characteristic, in order, each writing `01 00` to that descriptor |
| Effects.DiscoveryWrites | app/src/main/java/com/aidengilmartin/watchtweak/BlueDeviceService.kt:267-292 | a service list without an SG2 service causes no writes |
| Effects.DiscoveryWritesMembers | app/src/main/java/com/aidengilmartin/watchtweak/BlueDeviceService.kt:267-292 | service discovery issues only `01 00` descriptor writes and notification enables, all on the stored handle |
| Effects.DiscoverySingleService | app/src/main/java/com/aidengilmartin/watchtweak/BlueDeviceService.kt:267-292 | with exactly one SG2 service, discovery writes `01 00` to each of its descriptors and then enables notification |
| Effects.ReactionsEffectsAppend | app/src/main/java/com/aidengilmartin/watchtweak/BlueDeviceService.kt:319-406 | the effects of consecutive reactions are the concatenation of their effects |
| Effects.ReactionsEffectsCons | app/src/main/java/com/aidengilmartin/watchtweak/BlueDeviceService.kt:319-406 | the effects of a reaction followed by others are its own effects, then theirs |
| Effects.SingleReactionEffects | app/src/main/java/com/aidengilmartin/watchtweak/BlueDeviceService.kt:319-406 | the effects of a single reaction are that reaction's effects |
| Effects.CameraReactionsEffects | app/src/main/java/com/aidengilmartin/watchtweak/BlueDeviceService.kt:386-405 | the camera reactions emit the error notice, then the sound, then the clock-sync writes |
| Effects.CameraEffects | app/src/main/java/com/aidengilmartin/watchtweak/BlueDeviceService.kt:386-405 | the payload `65 29` emits "Remote camera not implemented", a sound, and then the clock sync over the current services |
| Effects.ScanActiveIgnores | app/src/main/java/com/aidengilmartin/watchtweak/BlueDeviceService.kt:128-142 | appending actions that neither start nor stop a scan leaves the scan state unchanged |
| Effects.SyncWritesHaveNoScanControl | app/src/main/java/com/aidengilmartin/watchtweak/BlueDeviceService.kt:433-473 | the clock sync never starts or stops a scan |
| Effects.SmsWritesHaveNoScanControl | app/src/main/java/com/aidengilmartin/watchtweak/BlueDeviceService.kt:567-584 | the SMS reminder never starts or stops a scan |
| Effects.NotificationWritesHaveNoScanControl | app/src/main/java/com/aidengilmartin/watchtweak/BlueDeviceService.kt:535-564 | forwarding a notification never starts or stops a scan |
| Effects.DiscoveryWritesHaveNoScanControl | app/src/main/java/com/aidengilmartin/watchtweak/BlueDeviceService.kt:267-292 | service discovery never starts or stops a scan |
| Effects.HandleActionsHaveNoScanControl | app/src/main/java/com/aidengilmartin/watchtweak/BlueDeviceService.kt:422-431 | reconnecting and closing never start or stop a scan |
| Effects.ReactionsEffectsHaveNoScanControl | app/src/main/java/com/aidengilmartin/watchtweak/BlueDeviceService.kt:319-406 | inbound payload handling never starts or stops a scan |
| Effects.NoScanControlAppend | app/src/main/java/com/aidengilmartin/watchtweak/BlueDeviceService.kt:128-142 | a concatenation of scan-neutral action sequences is scan-neutral |
| Service.BlueDeviceService.constructor | app/src/main/java/com/aidengilmartin/watchtweak/BlueDeviceService.kt:37-43 | no target, no device, no handle, updates enabled, no scan running, nothing issued |
| Service.BlueDeviceService.UpdateNotification | app/src/main/java/com/aidengilmartin/watchtweak/BlueDeviceService.kt:89-101 | the status text is published iff updates have not been disabled |
| Service.BlueDeviceService.StartBleScan | app/src/main/java/com/aidengilmartin/watchtweak/BlueDeviceService.kt:128-137 | with the adapter on, "Scanning" is published, a scan starts and the flag is set; otherwise "Error (Bluetooth Off)" is published and the flag is unchanged |
| Service.BlueDeviceService.StopBleScan | app/src/main/java/com/aidengilmartin/watchtweak/BlueDeviceService.kt:139-142 | issues a stop and clears the flag, whether or not a scan was running |
| Service.BlueDeviceService.OnScanResult | app/src/main/java/com/aidengilmartin/watchtweak/BlueDeviceService.kt:145-161 | a result for the target address publishes "Scanning (Device Found)", stops the scan, records the device, publishes "Connecting" and connects once; any other result changes nothing |
| Service.BlueDeviceService.OnScanFailed | app/src/main/java/com/aidengilmartin/watchtweak/BlueDeviceService.kt:163-166 | a scan failure stops the scan |
| Service.BlueDeviceService.OnConnectionStateChange | app/src/main/java/com/aidengilmartin/watchtweak/BlueDeviceService.kt:172-264 | publishes the classified text; then stores the callback's handle and requests discovery, or reconnects through the previously stored handle, or does nothing more |
| Service.BlueDeviceService.OnServicesDiscovered | app/src/main/java/com/aidengilmartin/watchtweak/BlueDeviceService.kt:267-292 | the loops over services and descriptors issue exactly the discovery writes, through the stored handle |
| Service.BlueDeviceService.OnCharacteristicChanged | app/src/main/java/com/aidengilmartin/watchtweak/BlueDeviceService.kt:297-409 | a missing characteristic does nothing; otherwise the issued actions are exactly the effects of the payload's reactions, with the time sync over the stored handle's services |
| Service.BlueDeviceService.CloseBleConnection | app/src/main/java/com/aidengilmartin/watchtweak/BlueDeviceService.kt:422-426 | disconnects and closes the stored handle if there is one, and always clears it |
| Service.BlueDeviceService.ReconnectBle | app/src/main/java/com/aidengilmartin/watchtweak/BlueDeviceService.kt:428-431 | disconnects and connects the stored handle again, and does nothing without one |
| Service.BlueDeviceService.SyncDateTime | app/src/main/java/com/aidengilmartin/watchtweak/BlueDeviceService.kt:433-473 | the loop issues exactly the clock-sync writes for the stored handle's services |
| Service.BlueDeviceService.SendSmsReminder | app/src/main/java/com/aidengilmartin/watchtweak/BlueDeviceService.kt:567-584 | the loop issues one SMS-reminder write per SG2 service of the stored handle |
| Service.BlueDeviceService.HandleNotificationEvent | app/src/main/java/com/aidengilmartin/watchtweak/BlueDeviceService.kt:535-564 | the nested loops issue exactly the notification writes: k·k reminders for an allowed package, none otherwise |
| Service.BlueDeviceService.OnStartCommand | app/src/main/java/com/aidengilmartin/watchtweak/BlueDeviceService.kt:482-500 | records the target name and address, shows "Starting" unconditionally, then starts the scan as `StartBleScan` does |
| Service.BlueDeviceService.OnDestroy | app/src/main/java/com/aidengilmartin/watchtweak/BlueDeviceService.kt:521-531 | disables further status updates and closes the connection |
| Service.CloseTwiceReleasesOnce | app/src/main/java/com/aidengilmartin/watchtweak/BlueDeviceService.kt:422-426 | closing twice releases the handle once; the second close issues nothing |
| Service.DestroyWhileConnecting | app/src/main/java/com/aidengilmartin/watchtweak/BlueDeviceService.kt:186-190 | after a destroy with no stored handle, a late STATE_CONNECTED stores the handle and requests discovery, with no status update |
| DeviceScan.IndexOfFirst | app/src/main/java/com/aidengilmartin/watchtweak/DeviceScanActivity.kt:115-116 | the index is -1 iff no entry has the address; otherwise it is the first entry with that address |
| DeviceScan.Upsert | app/src/main/java/com/aidengilmartin/watchtweak/DeviceScanActivity.kt:114-131 | a known address is replaced in place at its first index, and every other entry is kept; an unknown address is appended at the end |
| DeviceScan.UpsertKeepsAddressesDistinct | app/src/main/java/com/aidengilmartin/watchtweak/DeviceScanActivity.kt:114-131 | the list never holds two entries for one address |
| DeviceScan.DeviceScanActivity.constructor | app/src/main/java/com/aidengilmartin/watchtweak/DeviceScanActivity.kt:64-92 | no scan running, empty list, no result |
| DeviceScan.DeviceScanActivity.StartBleScan | app/src/main/java/com/aidengilmartin/watchtweak/DeviceScanActivity.kt:74-85 | with the adapter on, the list is cleared and a scan starts; otherwise the user is asked to enable Bluetooth and nothing else changes |
| DeviceScan.DeviceScanActivity.StopBleScan | app/src/main/java/com/aidengilmartin/watchtweak/DeviceScanActivity.kt:87-90 | issues a stop and clears the flag |
| DeviceScan.DeviceScanActivity.OnScanResult | app/src/main/java/com/aidengilmartin/watchtweak/DeviceScanActivity.kt:114-131 | the list becomes the upsert of the result, so addresses stay distinct |
| DeviceScan.DeviceScanActivity.OnResultTapped | app/src/main/java/com/aidengilmartin/watchtweak/DeviceScanActivity.kt:94-111 | stops the scan only if it is running, returns RESULT_OK with the device's address and name, and finishes |
| DeviceScan.DeviceScanActivity.OnBackPressed | app/src/main/java/com/aidengilmartin/watchtweak/DeviceScanActivity.kt:157-164 | always stops the scan, returns RESULT_CANCELED with no extras, and finishes |

## Left out

- Android services, activities, intents and the BLE stack are not executed: each platform call is an `Action` in a trace, and callbacks are serialized method calls. Binder threads, the main looper and their interleavings are not modelled.
- The `Handler.post` that defers `discoverServices` to the main thread is modelled as an immediate request on the callback's handle.
- Notification channels and notification building, `startForeground`, the audio manager's volume arithmetic and clamping, and ringtone lookup are reduced to the `Status`, `ErrorNotice`, `AdjustVolume` and `PlaySound` actions.
- The media-key intents: `isMusicActive` is a parameter. `SendMediaKey` stands for the single `ACTION_DOWN` key event the source dispatches (`BlueDeviceService.kt:328-346`); the source never sends an `ACTION_UP`, so the key is never released, and the model records the same single event.
- EventBus registration and delivery: `HandleNotificationEvent` takes the package name directly. Titles and texts are only logged, so they are left out.
- `Calendar.getInstance()` becomes a `Clock` parameter read once per call. The source reads the clock once per SG2 service, so with several SG2 services the model does not capture a clock that advances between iterations.
- UUIDs are compared as strings. `getCharacteristic` is assumed to find the SG2 characteristics; the source throws when one is missing.
- Each SG2 service has its own command characteristic, which `syncDateTime` and `sendSMSReminder` look up inside their per-service loops (`BlueDeviceService.kt:437-440`, `:570-573`); its value is overwritten before each write. `Gatt.WriteCommand` records the value at the time of the write but not which service's characteristic is written, so with k ≥ 2 SG2 services the model does not say that the k·k reminders go k to each of the k characteristics, nor that a time and date write of one iteration share a characteristic object.
- A handle's service list is fixed when the handle is created. The platform filling it in during discovery, and any later rediscovery, are not modelled.
- Logging and `toHex` only produce diagnostics.
- `onCreate`, `onBind` (not implemented in the source), `onUnbind`, `onRebind`, `onCharacteristicWrite` and the `startService`/`stopService` helpers only log or forward, so they are left out.
- In `DeviceScanActivity.kt`, `onScanFailed` only logs. `onCreate` (`DeviceScanActivity.kt:43`) starts a scan as soon as the activity is created; it corresponds to `DeviceScanActivity.constructor` followed by `StartBleScan`, and its other work (runtime permissions, the RecyclerView adapter and its change notifications) is user-interface plumbing.
- MainActivity.kt and NotificationService.kt are not part of this model.
- Service.BlueDeviceService.OnCharacteristicChanged: it requires a readable payload. The source throws an index exception on an empty payload, or on a lone `65` byte, and that failure is not modelled.
- Wire.Reactions: it requires a readable payload, for the same reason.
- Effects.InboundEffects: it requires a readable payload, for the same reason.

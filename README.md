# ConectaESP32 connection core, modelled in Dafny

ConectaESP32 is an Android application that lists the Bluetooth devices already paired
with the phone, connects to one of them (typically an ESP32 or an HC-05/HC-06 module) over
an RFCOMM serial socket, and exchanges text with it. This project models its core:

- **`BluetoothRepository`** (the connection session): the published `ConnectionState`
  (`Idle`, `Connecting(name)`, `Connected(name)`, `Error(message)`, `Disconnected`), the
  nullable socket, output stream, input stream and read-job fields, and the operations
  `connectToDevice`, `startReceivingData` (the read pump), `sendData`, `disconnect`,
  `closeConnectionInternally` and `getAdapterState`.
- **`BluetoothViewModel`**: the MAC-address check before delegating, the newline framing of
  outgoing messages, the communication log and the two collectors that feed it.
- **`PairedDevicesRepository`**: the listing of bonded devices with defaults, the type
  labels, the case-insensitive name filter for likely serial modules, and the adapter queries.
- **`PairedDevicesViewModel`**: the loading flag, the two device lists and the selection.

## How it is modelled

- `platform.dfy` (`Platform`): Kotlin nullables (`Option`), exceptions that escape a call
  (`Outcome`), the adapter and a remote device.
- `session.dfy` (`ConnectionSession`): the repository's whole state as a `Session` value
  and each operation as a function from the session before to the session after, with the
  properties the code gives it proved as postconditions and lemmas. `Consistent` is the
  invariant every public operation keeps (the internal `Close` keeps it from any state
  other than `Connected`): the two streams are the one socket's, a read job exists
  exactly while a socket does, `Connected` implies a live socket, and handles are fresh.
- `bluetooth_repository.dfy` (`Repository`): the class `BluetoothRepository` with the
  source's `var` fields; every method is proved to move `Snapshot()` exactly as its
  function in `ConnectionSession` does. The read pump is a `while` loop over the outcomes
  of successive reads, copying each chunk into a 1024-byte buffer.
- `mac_address.dfy` (`MacAddress`): `isBlank()` and the regular expression
  `([0-9A-Fa-f]{2}[:-]){5}([0-9A-Fa-f]{2})` matched against the whole string.
- `bluetooth_view_model.dfy` (`ConnectionViewModel`): the class `BluetoothViewModel`.
- `paired_devices.dfy` (`PairedDevices`): the listing and filter as functions, with the
  class `PairedDevicesRepository` that publishes the list.
- `paired_devices_view_model.dfy` (`DevicesViewModel`): the class `PairedDevicesViewModel`.

Every `launch` is split in two: the synchronous part of the call returns the job it
launches (`ConnectJob`, `SendJob`), and the job's body is a separate method
(`RunConnectJob`, `RunSendJob`, `RunReadPump`) that runs as a later step, so any
interleaving of calls and job bodies can be expressed. The one exception is `disconnect`:
its launched body (close, then `Disconnected`) runs at call time in
`BluetoothRepository.Disconnect`, and so in `BluetoothViewModel.Disconnect`. The platform is injected: the
adapter as it is at the moment of each repository call (`RefreshDevices` takes one per
call it makes), what `getRemoteDevice` gives, how opening
the socket ends, what each read returns, how a write and flush end, and what the bonded
set holds are all parameters. The text decoding of received bytes is a function
parameter `decode`; the clock is a `timestamp` parameter.

Where the code's behaviour is surprising, the model follows it:

- The check that forces `Disconnected` and calls `closeConnectionInternally` stands inside
  the body of the read loop, so the pump handles at most one read: after a positive read it
  publishes that one chunk, forces `Disconnected` (unless an error or a disconnection is
  already published) and closes the session (`PumpConsumesAtMostOne`, `PumpPositiveRead`).
  A continuous stream of chunks is not what the code does.
- A read that throws publishes `Disconnected` but does not close the session: socket,
  streams and job stay set, so "live socket exactly when `Connected`" holds in one
  direction only, and a send after such a failure is accepted (`SendAcceptedAfterReadFailure`).
- A failed write publishes `Error("Error al enviar")` and closes nothing.
- The code sets no connect timeout.
- The same log label "TX" is used for received and for sent data.
- `PairedDevicesViewModel.kt` imports `BluetoothDeviceInfo` and `PairedDevicesRepository`
  from the package `reporistorio`, while `PairedDevicesRepository.kt` declares them in
  `repositorio`; the model takes the declared ones.

## Model

| member | source | states |
|---|---|---|
| `ConnectionSession.Initial` | app/src/main/java/com/mexiti/conectaesp32/reporistorio/BluetoothRepository.kt:42-47 | A new repository is `Idle`, holds no socket, streams or job, has emitted and written nothing, and is consistent. |
| `ConnectionSession.GetAdapterState` | app/src/main/java/com/mexiti/conectaesp32/reporistorio/BluetoothRepository.kt:178-184 | Each of the three texts is returned exactly when the adapter is absent, disabled, or present and enabled. |
| `ConnectionSession.Close` | app/src/main/java/com/mexiti/conectaesp32/reporistorio/BluetoothRepository.kt:186-200 | Afterwards job, output stream, input stream and socket are all null and the pump is cancelled; state, events and writes are untouched; from any non-`Connected` state the result is consistent. |
| `ConnectionSession.CloseIdempotent` | app/src/main/java/com/mexiti/conectaesp32/reporistorio/BluetoothRepository.kt:186-200 | Closing a closed session changes nothing. |
| `ConnectionSession.Disconnect` | app/src/main/java/com/mexiti/conectaesp32/reporistorio/BluetoothRepository.kt:171-176 | The disconnect job ends in `Disconnected` with every handle null, events and writes kept, the session consistent. |
| `ConnectionSession.DisconnectIdempotent` | app/src/main/java/com/mexiti/conectaesp32/reporistorio/BluetoothRepository.kt:171-176 | Disconnecting twice gives the same session as disconnecting once. |
| `ConnectionSession.ConnectRequest` | app/src/main/java/com/mexiti/conectaesp32/reporistorio/BluetoothRepository.kt:56-78 | Only the state changes synchronously. Absent or disabled adapter: `Error("El Bluetooth no está habilitado")`, no job. Rejected address: `Error("Dirección MAC inválida")`, no job. Unresolved device: `Error("Dispositivo no encontrado")` unless an error is already published, no job. A job is launched exactly when adapter and lookup succeed, carrying the name or, when it is null, the address, and the state is then `Connecting` with that name; `Connecting` never appears otherwise. Consistency is kept. |
| `ConnectionSession.FailureReason` | app/src/main/java/com/mexiti/conectaesp32/reporistorio/BluetoothRepository.kt:93 | The connect error keeps the first 30 characters of the exception message (all of it if shorter), and prints "null" for a null message. |
| `ConnectionSession.RunConnect` | app/src/main/java/com/mexiti/conectaesp32/reporistorio/BluetoothRepository.kt:79-100 | On success the state is `Connected` with the job's name, socket, both streams and a read job are set and the pump is active; on an I/O failure `Error("Conexión fallida: " + reason)` and on a security failure `Error("Error de seguridad. ¿Permisos?")`, with every handle null. Every handle set afterwards is newer than any handle of the prior session. The result is always consistent. |
| `ConnectionSession.SuccessfulConnectScenario` | app/src/main/java/com/mexiti/conectaesp32/reporistorio/BluetoothRepository.kt:76-89 | With an enabled adapter and a device named "ESP32-Test" whose socket opens, the states are `Connecting("ESP32-Test")` then `Connected("ESP32-Test")`. |
| `ConnectionSession.ReconnectReplacesSession` | app/src/main/java/com/mexiti/conectaesp32/reporistorio/BluetoothRepository.kt:76-90 | Connecting while connected first publishes `Connecting` keeping the live socket; the connect job, however it ends, keeps neither the old socket nor the old read job. |
| `ConnectionSession.StartReceiving` | app/src/main/java/com/mexiti/conectaesp32/reporistorio/BluetoothRepository.kt:102-104 | The old read job is cancelled and replaced by a newly numbered one whose pump is active (in a consistent session, a different job from the old); nothing else changes, and a consistent session with a socket stays consistent. |
| `ConnectionSession.AfterChunk` | app/src/main/java/com/mexiti/conectaesp32/reporistorio/BluetoothRepository.kt:117-148 | After a positive read's chunk is published, the session is always closed and the pump stopped; `PumpPositiveRead` states the event and the state it leaves. |
| `ConnectionSession.Pump` | app/src/main/java/com/mexiti/conectaesp32/reporistorio/BluetoothRepository.kt:104-151 | The read loop as a function of the read outcomes: it stops at once unless the pump is active with a connected socket and an input stream, and otherwise acts on the first outcome. `PumpConsumesAtMostOne`, `PumpPositiveRead`, `PumpEndOfStream`, `PumpReadFailure`, `PumpEmitsAtMostOne` and `PumpKeepsConsistent` state what that gives. |
| `ConnectionSession.PumpPositiveRead` | app/src/main/java/com/mexiti/conectaesp32/reporistorio/BluetoothRepository.kt:114-148 | A positive read emits exactly the decoded text of those bytes when it is not empty, then the state is `Disconnected` unless an error or disconnection was already published, every handle is null and the pump has stopped. |
| `ConnectionSession.PumpEndOfStream` | app/src/main/java/com/mexiti/conectaesp32/reporistorio/BluetoothRepository.kt:123-129 | A read of zero bytes or the end of the stream gives `Disconnected` (never an error), every handle null, no message. |
| `ConnectionSession.PumpReadFailure` | app/src/main/java/com/mexiti/conectaesp32/reporistorio/BluetoothRepository.kt:131-137 | A failing read while active sets `Disconnected` and stops the pump, leaving socket, streams, job and events as they were. |
| `ConnectionSession.PumpConsumesAtMostOne` | app/src/main/java/com/mexiti/conectaesp32/reporistorio/BluetoothRepository.kt:108-149 | The pump's result depends on the first read outcome only: everything after it is never consumed. |
| `ConnectionSession.PumpEmitsAtMostOne` | app/src/main/java/com/mexiti/conectaesp32/reporistorio/BluetoothRepository.kt:108-149 | The pump keeps the events emitted before it, adds at most one, and writes nothing. |
| `ConnectionSession.PumpKeepsConsistent` | app/src/main/java/com/mexiti/conectaesp32/reporistorio/BluetoothRepository.kt:102-151 | The read pump keeps the session consistent. |
| `ConnectionSession.TenBytesThenCloseScenario` | app/src/main/java/com/mexiti/conectaesp32/reporistorio/BluetoothRepository.kt:114-148 | A connected peer that sends ten bytes and then closes yields one message with those bytes decoded, then `Disconnected` with the session closed. |
| `ConnectionSession.SendRequest` | app/src/main/java/com/mexiti/conectaesp32/reporistorio/BluetoothRepository.kt:154-159 | Without an output stream or a connected socket the state becomes `Error("No conectado para enviar")` and no write is launched; otherwise nothing changes and the write of exactly that data is launched. Nothing is written synchronously; consistency is kept. |
| `ConnectionSession.RunSend` | app/src/main/java/com/mexiti/conectaesp32/reporistorio/BluetoothRepository.kt:159-169 | No handle is closed and no event is emitted. With the output stream gone nothing happens; otherwise the data is written unless the write failed, and a write or flush failure publishes `Error("Error al enviar")`. |
| `ConnectionSession.SendWhileIdleScenario` | app/src/main/java/com/mexiti/conectaesp32/reporistorio/BluetoothRepository.kt:154-158 | Sending while idle publishes only `Error("No conectado para enviar")` and launches no write. |
| `ConnectionSession.SendAcceptedAfterReadFailure` | app/src/main/java/com/mexiti/conectaesp32/reporistorio/BluetoothRepository.kt:131-137 | After a failed read the state is `Disconnected`, yet a send is still accepted, because that path closes nothing. |
| `Repository.BluetoothRepository.constructor` | app/src/main/java/com/mexiti/conectaesp32/reporistorio/BluetoothRepository.kt:38-51 | A new repository is in the initial session and valid. |
| `Repository.BluetoothRepository.CloseConnectionInternally` | app/src/main/java/com/mexiti/conectaesp32/reporistorio/BluetoothRepository.kt:186-200 | The new state is `Close` of the old one. |
| `Repository.BluetoothRepository.ConnectToDevice` | app/src/main/java/com/mexiti/conectaesp32/reporistorio/BluetoothRepository.kt:56-78 | The new state and the returned job are those of `ConnectRequest`; validity is kept. |
| `Repository.BluetoothRepository.RunConnectJob` | app/src/main/java/com/mexiti/conectaesp32/reporistorio/BluetoothRepository.kt:79-100 | The new state is `RunConnect` of the old one; the object is valid afterwards. |
| `Repository.BluetoothRepository.StartReceivingData` | app/src/main/java/com/mexiti/conectaesp32/reporistorio/BluetoothRepository.kt:102-104 | The read job is replaced by a new, active one. |
| `Repository.BluetoothRepository.RunReadPump` | app/src/main/java/com/mexiti/conectaesp32/reporistorio/BluetoothRepository.kt:104-151 | The loop over the reads' outcomes, with its buffer, leaves exactly the state `Pump` gives, and keeps validity. |
| `Repository.BluetoothRepository.SendData` | app/src/main/java/com/mexiti/conectaesp32/reporistorio/BluetoothRepository.kt:154-159 | The new state and the returned job are those of `SendRequest`; validity is kept. |
| `Repository.BluetoothRepository.RunSendJob` | app/src/main/java/com/mexiti/conectaesp32/reporistorio/BluetoothRepository.kt:159-169 | The new state is `RunSend` of the old one; validity is kept. |
| `Repository.BluetoothRepository.Disconnect` | app/src/main/java/com/mexiti/conectaesp32/reporistorio/BluetoothRepository.kt:171-176 | The new state is `Disconnect` of the old one and valid. |
| `MacAddress.MatchesGroups` | app/src/main/java/com/mexiti/conectaesp32/viewmodel/BluetoothViewModel.kt:43 | The regex `([0-9A-Fa-f]{2}[:-]){k}[0-9A-Fa-f]{2}` read group by group; `GroupsArePositional` shows it fixes the length and every position. |
| `MacAddress.MatchesMacPattern` | app/src/main/java/com/mexiti/conectaesp32/viewmodel/BluetoothViewModel.kt:43 | `matches` with the address regex, which must cover the whole string; `MacPatternPositional` gives its positional meaning. |
| `MacAddress.IsBlank` | app/src/main/java/com/mexiti/conectaesp32/viewmodel/BluetoothViewModel.kt:43 | `isBlank()`: every character is whitespace, so the empty string is blank; `AcceptedIsPattern` shows no matching string is blank. |
| `MacAddress.GroupsArePositional` | app/src/main/java/com/mexiti/conectaesp32/viewmodel/BluetoothViewModel.kt:43 | A string matches `([0-9A-Fa-f]{2}[:-]){k}[0-9A-Fa-f]{2}` exactly when it has 3k+2 characters, a `:` or `-` at every third position and hex digits elsewhere. |
| `MacAddress.MacPatternPositional` | app/src/main/java/com/mexiti/conectaesp32/viewmodel/BluetoothViewModel.kt:43 | The address pattern matches exactly the 17-character strings of six hex pairs joined by `:` or `-`, in either case and with separators mixed. |
| `MacAddress.AcceptedIsPattern` | app/src/main/java/com/mexiti/conectaesp32/viewmodel/BluetoothViewModel.kt:43 | The blank test adds nothing: the guard accepts exactly the strings the pattern matches. |
| `MacAddress.AcceptedUpperCase` | app/src/main/java/com/mexiti/conectaesp32/viewmodel/BluetoothViewModel.kt:43 | "AA:BB:CC:DD:EE:FF" is accepted. |
| `MacAddress.AcceptedMixed` | app/src/main/java/com/mexiti/conectaesp32/viewmodel/BluetoothViewModel.kt:43 | Lower and mixed case with mixed separators ("aa-bb:CC-dd:Ee:0f") is accepted. |
| `MacAddress.RejectedExamples` | app/src/main/java/com/mexiti/conectaesp32/viewmodel/BluetoothViewModel.kt:43 | "not-a-mac", a trailing space and dots as separators are rejected. |
| `ConnectionViewModel.LogEntry` | app/src/main/java/com/mexiti/conectaesp32/viewmodel/BluetoothViewModel.kt:37 | A log line is the timestamp, then " TX: ", then the data, and nothing else. |
| `ConnectionViewModel.Frame` | app/src/main/java/com/mexiti/conectaesp32/viewmodel/BluetoothViewModel.kt:58 | The framed message is the message followed by one newline. |
| `ConnectionViewModel.BluetoothViewModel.constructor` | app/src/main/java/com/mexiti/conectaesp32/viewmodel/BluetoothViewModel.kt:17-40 | The view-model starts `Idle` with an empty log over a fresh repository in its initial session. |
| `ConnectionViewModel.BluetoothViewModel.Connect` | app/src/main/java/com/mexiti/conectaesp32/viewmodel/BluetoothViewModel.kt:42-49 | A blank or non-matching address sets `Error("Dirección MAC inválida")`, leaves the log and the repository untouched and launches nothing; a matching one empties the log and then does exactly the repository's connect request. |
| `ConnectionViewModel.BluetoothViewModel.Disconnect` | app/src/main/java/com/mexiti/conectaesp32/viewmodel/BluetoothViewModel.kt:51-54 | Delegates: the repository takes the disconnect step. |
| `ConnectionViewModel.BluetoothViewModel.SendMessage` | app/src/main/java/com/mexiti/conectaesp32/viewmodel/BluetoothViewModel.kt:56-61 | A blank message changes nothing and sends nothing; otherwise the repository's send request gets the message plus "\n", and exactly one entry `"<ts> TX: message"` is appended to the log, earlier entries unchanged. |
| `ConnectionViewModel.BluetoothViewModel.CollectConnectionState` | app/src/main/java/com/mexiti/conectaesp32/viewmodel/BluetoothViewModel.kt:31-33 | Every new repository state value overwrites the view-model's state. |
| `ConnectionViewModel.BluetoothViewModel.CollectReceivedData` | app/src/main/java/com/mexiti/conectaesp32/viewmodel/BluetoothViewModel.kt:35-39 | Each emitted message, in order, becomes exactly one entry `"<ts> TX: data"` at the end of the log. |
| `PairedDevices.DeviceTypeLabel` | app/src/main/java/com/mexiti/conectaesp32/repositorio/PairedDevicesRepository.kt:62-69 | "Clásico", "BLE", "Dual" exactly for the classic, LE and dual codes, "Desconocido" exactly for every other code. |
| `PairedDevices.ToDeviceInfo` | app/src/main/java/com/mexiti/conectaesp32/repositorio/PairedDevicesRepository.kt:42-48 | Each entry is marked paired and carries the device's address, its name or "Dispositivo Desconocido" when the name is null, and its type label. |
| `PairedDevices.IsBluetoothAvailable` | app/src/main/java/com/mexiti/conectaesp32/repositorio/PairedDevicesRepository.kt:81-83 | Bluetooth is available exactly when the adapter is present and enabled; `AdapterInfoReportsAvailability` ties it to the adapter info text. |
| `PairedDevices.AdapterInfo` | app/src/main/java/com/mexiti/conectaesp32/repositorio/PairedDevicesRepository.kt:85-92 | Three-way: not supported, disabled, or "Bluetooth activado - " with the adapter name or "Adaptador local" when it is null. |
| `PairedDevices.AdapterInfoReportsAvailability` | app/src/main/java/com/mexiti/conectaesp32/repositorio/PairedDevicesRepository.kt:81-92 | The adapter info begins with "Bluetooth activado" exactly when `isBluetoothAvailable` holds (adapter present and enabled). |
| `PairedDevices.PairedListing` | app/src/main/java/com/mexiti/conectaesp32/repositorio/PairedDevicesRepository.kt:35-59 | Unavailable Bluetooth, a null set and a denied permission give the empty list; only another exception escapes. Otherwise there is one entry per bonded device, in order, paired, with the device's address, its name or "Dispositivo Desconocido", and its type label. |
| `PairedDevices.ContainsIgnoreCase` | app/src/main/java/com/mexiti/conectaesp32/repositorio/PairedDevicesRepository.kt:74-77 | `contains(fragment, ignoreCase = true)` with ASCII case folding: the fragment occurs at some position of the name, character by character up to ASCII case. |
| `PairedDevices.IsTargetName` | app/src/main/java/com/mexiti/conectaesp32/repositorio/PairedDevicesRepository.kt:73-78 | The name contains "ESP32", "ESP", "Arduino" or "HC-", ignoring case; `Esp32FragmentRedundant` reduces it to three fragments. |
| `PairedDevices.TargetNameExamples` | app/src/main/java/com/mexiti/conectaesp32/repositorio/PairedDevicesRepository.kt:73-78 | "hc-05" and "Mi esp32" are targets, whatever the case and wherever the fragment stands; "Buds" is not. |
| `PairedDevices.FilterTargets` | app/src/main/java/com/mexiti/conectaesp32/repositorio/PairedDevicesRepository.kt:72-78 | `filter` with the name test; `FilterTargetsMembers`, `FilterTargetsCounts` and `FilterTargetsSubsequence` state what it keeps. |
| `PairedDevices.Esp32FragmentRedundant` | app/src/main/java/com/mexiti/conectaesp32/repositorio/PairedDevicesRepository.kt:73-78 | The "ESP32" test is subsumed by the "ESP" test. |
| `PairedDevices.FilterTargetsMembers` | app/src/main/java/com/mexiti/conectaesp32/repositorio/PairedDevicesRepository.kt:71-79 | The filter keeps exactly the devices whose name contains "ESP32", "ESP", "Arduino" or "HC-", ignoring case. |
| `PairedDevices.FilterTargetsCounts` | app/src/main/java/com/mexiti/conectaesp32/repositorio/PairedDevicesRepository.kt:72-78 | Each device occurs in the result as often as in the input when its name matches, and not at all otherwise. |
| `PairedDevices.FilterTargetsSubsequence` | app/src/main/java/com/mexiti/conectaesp32/repositorio/PairedDevicesRepository.kt:71-79 | The filter's result is a subsequence of its input: order is kept. |
| `PairedDevices.TargetListing` | app/src/main/java/com/mexiti/conectaesp32/repositorio/PairedDevicesRepository.kt:71-79 | `findESP32Devices` throws exactly when its listing throws. |
| `PairedDevices.TargetsAreSelectionOfPaired` | app/src/main/java/com/mexiti/conectaesp32/repositorio/PairedDevicesRepository.kt:71-79 | Over one bonded set, the target list is an order-preserving selection of the paired list made of exactly its matching entries, each kept as many times as it is paired. |
| `PairedDevices.PairedDevicesRepository.constructor` | app/src/main/java/com/mexiti/conectaesp32/repositorio/PairedDevicesRepository.kt:20-25 | The published list starts empty. |
| `PairedDevices.PairedDevicesRepository.GetPairedDevices` | app/src/main/java/com/mexiti/conectaesp32/repositorio/PairedDevicesRepository.kt:35-59 | Returns `PairedListing`; publishes it unless Bluetooth is unavailable or an exception escapes, in which case the published list is unchanged. |
| `PairedDevices.PairedDevicesRepository.FindESP32Devices` | app/src/main/java/com/mexiti/conectaesp32/repositorio/PairedDevicesRepository.kt:71-79 | Returns the filtered listing and publishes the paired list as `getPairedDevices` does. |
| `DevicesViewModel.PairedDevicesViewModel.constructor` | app/src/main/java/com/mexiti/conectaesp32/viewmodel/PairedDevicesViewModel.kt:18-36 | Both lists start empty, not loading, nothing selected. |
| `DevicesViewModel.PairedDevicesViewModel.RefreshDevices` | app/src/main/java/com/mexiti/conectaesp32/viewmodel/PairedDevicesViewModel.kt:38-55 | Loading ends false even when the repository throws; the paired list is stored, then the filtered list, each from the adapter and bonded set its own call sees; a list whose call threw keeps its old value; the selection is untouched; when both calls see the same adapter and bonded set, the filtered list is a subsequence of the paired list holding each matching device as often as it is paired. |
| `DevicesViewModel.PairedDevicesViewModel.SelectDevice` | app/src/main/java/com/mexiti/conectaesp32/viewmodel/PairedDevicesViewModel.kt:57-60 | The selection becomes the device; lists and loading flag unchanged. |
| `DevicesViewModel.PairedDevicesViewModel.ClearSelection` | app/src/main/java/com/mexiti/conectaesp32/viewmodel/PairedDevicesViewModel.kt:62-64 | The selection becomes null; lists and loading flag unchanged. |

## Left out

- Coroutines, dispatchers and flows: each `launch` body is one sequential step, the pump's
  `isActive` is a field cleared by cancellation, `emit` appends to `received`, and the
  state collector delivers the latest distinct value. Scheduling fairness, conflation
  timing and job joining are not modelled.
- The Android Bluetooth APIs are injected outcomes: `getRemoteDevice` (including the
  platform's own, stricter address syntax check, which is not part of this model), RFCOMM
  socket creation and `connect` with the serial-port UUID, the streams, and the bonded set.
  A socket counts as connected from a successful open until it is closed.
- `closeConnectionInternally` when a `close` throws: the finally block nulls every field
  regardless, which the model states; whether the platform resource behind a throwing or
  a skipped `close` is released is not tracked.
- A read pump that was cancelled and later wakes from its blocked read: its next read then
  fails while inactive and it ends with no effect, so only the current pump is modelled.
  When the outcomes given to `RunReadPump` run out, the pump is still blocked in `read`.
- Text decoding of received bytes (`String(buffer, 0, bytes)`) is the parameter `decode`;
  the encoding of sent text (`toByteArray`) is not modelled: sent data is recorded as text.
- ConnectionSession.FailureReason: Kotlin's `take(30)` counts UTF-16 code units; the
  model counts characters, which differ only for characters outside the Basic Multilingual Plane.
- PairedDevices.ContainsIgnoreCase: case-insensitive matching folds ASCII letters only, while
  Kotlin compares `uppercaseChar()` and then `lowercaseChar()` (so 'ı' matches 'i' and 'ſ'
  matches 's'); `IsTargetName`, `FilterTargets` and PairedDevices.FilterTargetsMembers inherit this.
- The clock (`SimpleDateFormat`) is the `timestamp` parameter; logging calls are omitted.
- `BluetoothViewModel.onCleared` and the `adapterState` getter: the first depends on the
  lifecycle of the view-model's own coroutine scope, the second only forwards
  `getAdapterState`. `PairedDevicesViewModel.getAdapterInfo` and `isBluetoothAvailable`
  forward in the same way.
- `PairedDevicesViewModel`'s `init` refresh: on the main thread it completes before the
  constructor returns; the model leaves it to an explicit `RefreshDevices` call after the
  constructor.
- The transient `isLoading = true` during a refresh is visible only to concurrent observers.
- `PairedDevicesRepository.isScanning` is never written.
- The user interface, navigation, permission requests, and the unfinished duplicate
  `BluetoothReporsitory.kt`.

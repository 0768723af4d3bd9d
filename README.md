# BuzzahBuddy glove controller core, in Dafny

BuzzahBuddy is a mobile companion app for the BlueBuzzah vibrotactile glove.
This project models its connection and control core and proves properties of it:

- **Connection manager** (`bluetooth.dfy`, module `Bluetooth`):
  - the four-state connection machine (Disconnected, Connecting, Connected,
    Error), which notifies only on a real change;
  - the scan and its registry of discovered gloves: a case-insensitive
    *substring* filter on the advertised name, first seen wins;
  - connect and disconnect;
  - the transport's lifecycle events;
  - the characteristic write and read, guarded by "a connection handle is held";
  - the battery level read.
- **Glove controller** (`glove.dfy`, module `Glove`):
  - the vibration interlock: start, stop, change intensity and the connection
    test, over `IsVibrating` and `CurrentPattern`;
  - the built-in catalogue of five patterns.

  The controller mutates the caller's pattern object in place, so
  `VibrationPattern` is a class (`models.dfy`).
- **Command codec** (`codec.dfy`, module `Codec`):
  - the six-byte start frame and the one-byte stop frame;
  - the battery byte decode;
  - `ParseCommand`, a receiver's reading of the frame layout, which the
    encoder is proved against.
- **Preferences store** (`storage.dfy`, module `Storage`): three in-memory
  slots for the session list, the pattern list and the last device. It
  models:
  - upsert by id;
  - the 100-session cap that keeps the latest sessions;
  - the latest-first history with an optional limit;
  - delete-first-match;
  - clear-all.

Supporting modules:

- `discovery.dfy`: the advertisement filter and the registry as functions
  over advertisement sequences.
- `session_history.dfy`: the stable descending sort on start time, the history and
  the cap.
- `seqs.dfy`: first-match lookup and removal by id.
- `transport.dfy`: the adapter-side values (advertisements, writes, adapter
  requests, connect outcomes).
- `models.dfy`: the entities.
- `wrappers.dfy`: `Option`.

**The transport is abstract.** Every result the Bluetooth adapter would
produce is an input of the method that consumes it:

- whether the radio is on;
- the advertisements that arrive during a scan;
- the adapter's connected and discovered device lists;
- the connect outcome;
- whether a write was taken;
- the bytes a read returns.

Events raised (`ConnectionStateChanged`, `DeviceDiscovered`,
`VibrationStateChanged`) and requests made of the adapter are appended to log
fields. Clock readings (`DateTime.Now`) are integer tick parameters. Fresh
Guids are string parameters.

**Points where the code behaves differently from what one might expect; the model follows the code:**

- The discovery filter is `Contains` with `OrdinalIgnoreCase` (a substring
  test), not a prefix test.
- A scan returns the dictionary's values, whose order `ConcurrentDictionary`
  does not specify. The model therefore returns the registry as a map, not as
  a sequence in arrival order.
- Starting a second pattern while one is active leaves the first pattern's
  `IsActive` flag set. Only the new pattern is touched.

## Model

| member | source | states |
|---|---|---|
| Models.Clamp | BuzzahBuddy/Services/Glove/GloveControlService.cs:104 | Math.Clamp: the result lies in [lo, hi] and is the point of that range nearest to the value |
| Models.VibrationPattern.constructor | BuzzahBuddy/Models/VibrationPattern.cs:11-51 | a new pattern has intensity 50, duration 1000 ms, frequency 100 Hz, interval 500 ms, continuous, inactive, empty name, no description |
| Models.GloveDevice.constructor | BuzzahBuddy/Services/Bluetooth/BluetoothService.cs:221-227 | the record built for an advertisement carries its id, name and signal strength; it is Disconnected, with no address, battery, firmware or connection time |
| Codec.BuildVibrationCommand | BuzzahBuddy/Services/Glove/GloveControlService.cs:200-221 | a stop request gives exactly the one-byte frame [0x00]; a start request gives six bytes opening with 0x01 |
| Codec.StartFrameRoundTrip | BuzzahBuddy/Services/Glove/GloveControlService.cs:213-219 | decoding a start frame gives back the clamped intensity (0..100), the duration modulo 65536, the clamped frequency (0..255) and the mode |
| Codec.LittleEndianDuration | BuzzahBuddy/Services/Glove/GloveControlService.cs:216-217 | byte 2 + 256 * byte 3 equals the duration modulo 65536, i.e. a 16-bit little-endian field |
| Codec.StartFrameExact | BuzzahBuddy/Services/Glove/GloveControlService.cs:213-219 | a pattern already within the ranges is carried by its start frame without loss |
| Codec.StartFrameDeterminedByNormalized | BuzzahBuddy/Services/Glove/GloveControlService.cs:213-219 | two patterns get the same start frame if and only if their clamped and truncated fields agree; the interval never affects the frame |
| Codec.StopFrameDistinct | BuzzahBuddy/Services/Glove/GloveControlService.cs:202-205 | the stop frame decodes as a stop command and no start frame equals it |
| Codec.DecodeBatteryLevel | BuzzahBuddy/Services/Bluetooth/BluetoothService.cs:199-209 | nothing exactly for an empty buffer, otherwise its first byte, in 0..255 and not checked against 100 |
| Discovery.ContainsIgnoreCaseIff | BuzzahBuddy/Services/Bluetooth/BluetoothService.cs:216 | the left-to-right scan reports the prefix if and only if it occurs at some position of the name, ignoring letter case |
| Discovery.GloveAdvertisementIff | BuzzahBuddy/Services/Bluetooth/BluetoothService.cs:215-219 | an advertisement passes the filter if and only if it has a name in which "BlueBuzzah" occurs anywhere, in any letter case (no name or an empty name never passes) |
| Discovery.AdmitAllKeys | BuzzahBuddy/Services/Bluetooth/BluetoothService.cs:221-229 | the registry's ids after a run are its earlier ids plus the ids of the accepted advertisements, and no others |
| Discovery.AdmitAllKeepsExisting | BuzzahBuddy/Services/Bluetooth/BluetoothService.cs:229 | an id already in the registry keeps its entry whatever arrives later |
| Discovery.AdmitAllFirstSeen | BuzzahBuddy/Services/Bluetooth/BluetoothService.cs:229-232 | an id's entry is the earliest accepted advertisement carrying that id |
| Discovery.FirstSeenIdsSpec | BuzzahBuddy/Services/Bluetooth/BluetoothService.cs:229-232 | the ids in the order of their first accepted advertisement list each id once, and they are exactly the ids of the registry the same advertisements build |
| Bluetooth.NotificationsExtend | BuzzahBuddy/Services/Bluetooth/BluetoothService.cs:264-271 | state requests extend the notification log by at most one entry each, never with an entry equal to the one before, and the state ends as the last request |
| Bluetooth.ConnectTargetSpec | BuzzahBuddy/Services/Bluetooth/BluetoothService.cs:79-80 | the adapter device chosen for an id carries that id; it is the first already-connected one with that id when there is one, else the first discovered one with it; there is none only when neither list has the id |
| Bluetooth.BluetoothService.constructor | BuzzahBuddy/Services/Bluetooth/BluetoothService.cs:18-22 | the service starts Disconnected, with no handle, no connected device, an empty registry and no notifications |
| Bluetooth.BluetoothService.UpdateConnectionState | BuzzahBuddy/Services/Bluetooth/BluetoothService.cs:264-271 | sets the state and notifies only when it differs from the old state; keeps the log repeat-free and the state equal to its last entry |
| Bluetooth.BluetoothService.ScanForDevices | BuzzahBuddy/Services/Bluetooth/BluetoothService.cs:38-60 | clears the registry; returns it empty and starts no scan with the radio off; otherwise starts a scan and returns the first-seen-wins registry of the accepted advertisements, each entry a new Disconnected device; the discovery notifications it raises are the registry's entries in the order their ids were first seen, each entry once, as many as the entries |
| Bluetooth.BluetoothService.OnDeviceDiscovered | BuzzahBuddy/Services/Bluetooth/BluetoothService.cs:212-233 | a rejected advertisement or a known id changes nothing; otherwise a new entry is added for the id and notified |
| Bluetooth.BluetoothService.ConnectToDevice | BuzzahBuddy/Services/Bluetooth/BluetoothService.cs:70-105 | always moves to Connecting first; with no target it ends in Error and returns false without asking the adapter; on success it records the handle and device, stamps the device Connected with the time, ends in Connected and returns true; a connection failure ends in Error with false; any other failure propagates and leaves the state Connecting |
| Bluetooth.BluetoothService.Disconnect | BuzzahBuddy/Services/Bluetooth/BluetoothService.cs:107-126 | changes nothing without a handle; otherwise asks the adapter to disconnect, then drops the handle and the device and ends in Disconnected, whatever the adapter did |
| Bluetooth.BluetoothService.OnDeviceConnected | BuzzahBuddy/Services/Bluetooth/BluetoothService.cs:235-242 | the connected device's cached state (if any) and the service state become Connected |
| Bluetooth.BluetoothService.OnDeviceDisconnected | BuzzahBuddy/Services/Bluetooth/BluetoothService.cs:244-252 | drops the handle and sets the device's cached state and the service state to Disconnected; the device stays recorded |
| Bluetooth.BluetoothService.OnDeviceConnectionLost | BuzzahBuddy/Services/Bluetooth/BluetoothService.cs:254-262 | drops the handle and sets the device's cached state and the service state to Error; the device stays recorded |
| Bluetooth.BluetoothService.WriteCharacteristic | BuzzahBuddy/Services/Bluetooth/BluetoothService.cs:128-154 | without a handle it returns false and sends nothing; otherwise it sends the bytes and returns whether the transport took them |
| Bluetooth.BluetoothService.ReadCharacteristic | BuzzahBuddy/Services/Bluetooth/BluetoothService.cs:156-181 | returns empty without a handle, otherwise what the transport returned |
| Bluetooth.BluetoothService.GetBatteryLevel | BuzzahBuddy/Services/Bluetooth/BluetoothService.cs:188-210 | nothing without a handle or for an empty read; otherwise the first byte, in 0..255 |
| Glove.DefaultPresetsEncodeExactly | BuzzahBuddy/Services/Glove/GloveControlService.cs:112-166 | the catalogue has five distinctly named patterns, each within the frame ranges, so each start frame carries its fields exactly |
| Glove.GentleFrame | BuzzahBuddy/Services/Glove/GloveControlService.cs:116-124 | the first pattern, Gentle, is sent as [0x01, 0x1E, 0xE8, 0x03, 0x50, 0x00] |
| Glove.NewPattern | BuzzahBuddy/Services/Glove/GloveControlService.cs:176-183 | an object initialiser gives a new inactive pattern with the given name, description and settings |
| Glove.GetDefaultPatterns | BuzzahBuddy/Services/Glove/GloveControlService.cs:112-166 | five new, distinct pattern objects carrying Gentle, Moderate, Strong, Pulsed and Rapid Pulse in that order, inactive |
| Glove.GloveControlService.constructor | BuzzahBuddy/Services/Glove/GloveControlService.cs:18-21 | a new controller is not vibrating and has no current pattern |
| Glove.GloveControlService.StartVibration | BuzzahBuddy/Services/Glove/GloveControlService.cs:23-56 | unless Connected it sends nothing, changes nothing and returns false; otherwise it sends the pattern's start frame; if the frame was taken the pattern becomes current and active and `true` is notified; otherwise nothing changes; no other pattern is touched |
| Glove.GloveControlService.StopVibration | BuzzahBuddy/Services/Glove/GloveControlService.cs:58-94 | unless Connected it sends nothing, changes nothing and returns false; otherwise it sends [0x00] even when idle; if taken, the previous pattern is marked inactive and dropped and `false` is notified; otherwise nothing changes |
| Glove.GloveControlService.SetIntensity | BuzzahBuddy/Services/Glove/GloveControlService.cs:96-110 | without a vibrating current pattern it returns false and changes nothing; otherwise the pattern's intensity becomes the value clamped to 0..100, even if the restart then fails; the pattern is restarted and the frame sent decodes to that intensity |
| Glove.GloveControlService.GetBatteryLevel | BuzzahBuddy/Services/Glove/GloveControlService.cs:168-171 | the connection manager's battery level: nothing without a handle or for an empty read, else the first byte |
| Glove.GloveControlService.TestConnection | BuzzahBuddy/Services/Glove/GloveControlService.cs:173-194 | returns exactly the result of starting a fresh pulsed 50 %, 200 ms, 100 Hz "Test" pattern; sends a stop only after a successful start |
| Seqs.FirstIndexWithId | BuzzahBuddy/Services/Storage/PreferencesStorageService.cs:26 | FirstOrDefault by id: the index found holds the id and no earlier element does; none is found only when no element holds it |
| Seqs.FirstWithIdSpec | BuzzahBuddy/Services/Storage/PreferencesStorageService.cs:79 | the element found is the earliest with the id; nothing exactly when no element has it |
| Seqs.RemoveFirstWithId | BuzzahBuddy/Services/Storage/PreferencesStorageService.cs:26-30 | List.Remove of the first match: the list without that one element, the rest in order; unchanged when nothing matches |
| Seqs.RemoveFirstWithIdMultiset | BuzzahBuddy/Services/Storage/PreferencesStorageService.cs:85-89 | removal by id takes out exactly the matched element, or nothing |
| Seqs.RemoveKeepsUnique | BuzzahBuddy/Services/Storage/PreferencesStorageService.cs:140-144 | on a list with unique ids, removal leaves ids unique and no element with the removed id |
| Seqs.UpsertKeepsUnique | BuzzahBuddy/Services/Storage/PreferencesStorageService.cs:100-106 | on a list with unique ids, remove-then-append keeps ids unique, and the appended element is the one found for its id |
| SessionHistory.SortPermutes | BuzzahBuddy/Services/Storage/PreferencesStorageService.cs:60 | ordering by start time keeps exactly the same sessions, with the same multiplicities |
| SessionHistory.SortSorted | BuzzahBuddy/Services/Storage/PreferencesStorageService.cs:60 | ordering puts later start times first |
| SessionHistory.SortStable | BuzzahBuddy/Services/Storage/PreferencesStorageService.cs:60 | ordering is stable: sessions with equal start times keep their relative order |
| SessionHistory.SortedPrefixIsLatest | BuzzahBuddy/Services/Storage/PreferencesStorageService.cs:37 | the first n sessions of the ordering are sorted, come from the list, and start no earlier than any session left out |
| SessionHistory.HistoryIsLatestFirst | BuzzahBuddy/Services/Storage/PreferencesStorageService.cs:46-67 | the history is latest first, of length min(limit, count) for limit > 0 and count otherwise, drawn from the stored sessions, and holds the latest ones; without a limit it is a stable permutation of the stored list |
| SessionHistory.CapLatestKeepsNewest | BuzzahBuddy/Services/Storage/PreferencesStorageService.cs:35-38 | the cap leaves at most 100 sessions, leaves 100 or fewer untouched, keeps 100 sorted otherwise, and drops only sessions starting no later than every kept one |
| Storage.SaveSessionUpserts | BuzzahBuddy/Services/Storage/PreferencesStorageService.cs:21-44 | after a save there are at most 100 sessions and nothing new but the saved one; the saved session is kept unless every kept session starts no earlier than it; without the cap it is appended after the history minus the old session of its id |
| Storage.PreferencesStorageService.constructor | BuzzahBuddy/Services/Storage/PreferencesStorageService.cs:11-13 | all three slots start empty |
| Storage.PreferencesStorageService.SaveSession | BuzzahBuddy/Services/Storage/PreferencesStorageService.cs:21-44 | stores the history without the first session of that id, plus the session, cut to the 100 latest; never more than 100, never anything new but the session |
| Storage.PreferencesStorageService.GetSessionHistory | BuzzahBuddy/Services/Storage/PreferencesStorageService.cs:46-74 | empty when nothing is stored; otherwise the stored sessions latest first, cut to `limit` when limit > 0, and these are the latest ones |
| Storage.PreferencesStorageService.GetSessionById | BuzzahBuddy/Services/Storage/PreferencesStorageService.cs:76-80 | the first session of that id in history order; nothing if and only if no stored session has the id |
| Storage.PreferencesStorageService.DeleteSession | BuzzahBuddy/Services/Storage/PreferencesStorageService.cs:82-93 | with a match, the history without exactly that first matching session is stored; with none the slot is untouched |
| Storage.PreferencesStorageService.SavePattern | BuzzahBuddy/Services/Storage/PreferencesStorageService.cs:95-112 | stores the list without the first pattern of that id, plus the pattern's record at the end, with no cap; it grows by one only for a new id; unique ids stay unique and the id then finds this record |
| Storage.PreferencesStorageService.GetPatterns | BuzzahBuddy/Services/Storage/PreferencesStorageService.cs:114-135 | what was last stored, in stored order; empty when nothing is stored |
| Storage.PreferencesStorageService.DeletePattern | BuzzahBuddy/Services/Storage/PreferencesStorageService.cs:137-148 | with a match, the list without exactly that first match, the others in order; with none it is untouched; with unique ids the id is then gone |
| Storage.PreferencesStorageService.SaveLastDevice | BuzzahBuddy/Services/Storage/PreferencesStorageService.cs:150-155 | stores the device's current record |
| Storage.PreferencesStorageService.GetLastDevice | BuzzahBuddy/Services/Storage/PreferencesStorageService.cs:157-176 | the record last stored, or nothing when none was stored since the last clear |
| Storage.PreferencesStorageService.ClearAllData | BuzzahBuddy/Services/Storage/PreferencesStorageService.cs:178-184 | all three slots are emptied, so any history is empty, there are no patterns and no last device |

## Left out

- Asynchrony is not modelled. That covers `async`/`await`, the `Task.Delay`
  between the test pulse's start and stop, `ConcurrentDictionary` thread
  safety and events arriving concurrently. Every call is one atomic step, so
  the connection state cannot change between the two halves of the
  connection test.
- The Bluetooth adapter is not modelled; its results are method inputs. This
  covers scanning (and the scan timeout), connecting, disconnecting, GATT
  service and characteristic lookup, writes and reads. A missing service or
  characteristic, or a write that throws, is `delivered = false` or an empty
  `reply`.
- `StopScanAsync` is adapter-only and is not modelled.
- `IsBluetoothEnabledAsync` is the `radioOn` input of the scan.
- A disconnect request that throws is not modelled separately. It has no
  effect of its own: the handle is dropped either way.
- JSON serialisation and the platform preferences store are not modelled.
  Each slot holds the values a round trip would give back. The
  `JsonException` fallbacks are not modelled, and neither are the null
  deserialisations that return an empty list.
- An empty slot and a stored empty list read the same, as they do in the
  code.
- `TherapySession.Duration` reads the clock and is not modelled.
- Times (`StartTime`, `EndTime`, `LastConnected`) are integer ticks.
- Fresh Guids (pattern and session ids) are parameters.
- The service and characteristic UUIDs are distinct abstract values.
- `Discovery.ContainsIgnoreCase`: folds only ASCII letters. `OrdinalIgnoreCase`
  also folds other Unicode letters, so names outside ASCII are compared more
  strictly here than in the code.
- `Bluetooth.BluetoothService.ScanForDevices`: returns the registry as a map
  from id to device. The code returns the dictionary's values, whose order is
  unspecified.
- The catch blocks in `StartVibrationAsync` and `StopVibrationAsync` are not
  modelled. The write they guard already turns every transport fault into
  `false`, so they are unreachable in this model.
- `Debug.WriteLine` logging is not modelled.
- The view models, converters and application start-up are not modelled.

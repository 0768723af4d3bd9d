/**
 * The connection manager: the four-state machine with its de-duplicated
 * notifications, the discovery registry of one scan, connect and disconnect,
 * the transport's lifecycle events, and the guarded characteristic
 * write/read with the battery level read on top.
 */
module Bluetooth {
  import opened Wrappers
  import opened Models
  import opened Transport
  import opened Codec
  import opened Discovery
  import opened Seqs

  /**
   * The notifications raised when the state is set to each of `requested` in
   * turn, starting in `from`: one per request that changes the state.
   */
  function Notifications(from: ConnectionState, requested: seq<ConnectionState>): seq<ConnectionState>
    decreases |requested|
  {
    if requested == [] then []
    else (if requested[0] != from then [requested[0]] else []) + Notifications(requested[0], requested[1..])
  }

  /** The state after a notification log that started in `from`. */
  function LastState(from: ConnectionState, log: seq<ConnectionState>): ConnectionState
  {
    if log == [] then from else log[|log| - 1]
  }

  /** No notification repeats the state before it. */
  predicate NoRepeats(from: ConnectionState, log: seq<ConnectionState>)
  {
    && (|log| > 0 ==> log[0] != from)
    && forall i :: 0 < i < |log| ==> log[i] != log[i - 1]
  }

  /** A repeat-free log followed by a log repeat-free from where the first ended is repeat-free. */
  lemma NoRepeatsAppend(from: ConnectionState, log: seq<ConnectionState>, ext: seq<ConnectionState>)
    requires NoRepeats(from, log) && NoRepeats(LastState(from, log), ext)
    ensures NoRepeats(from, log + ext)
    ensures LastState(from, log + ext) == LastState(LastState(from, log), ext)
  {
    var all := log + ext;
    forall i | 0 < i < |all| ensures all[i] != all[i - 1] {
      if i > |log| {
        assert all[i] == ext[i - |log|] && all[i - 1] == ext[i - 1 - |log|];
      } else if i == |log| {
        assert all[i] == ext[0] && all[i - 1] == log[|log| - 1];
      } else {
        assert all[i] == log[i] && all[i - 1] == log[i - 1];
      }
    }
    if log == [] {
      assert all == ext;
    }
  }

  /**
   * The notifications of a run of state requests never repeat the state
   * before them, number at most one per request, and leave the state at the
   * last request.
   */
  lemma {:induction false} NotificationsShape(from: ConnectionState, requested: seq<ConnectionState>)
    ensures var n := Notifications(from, requested);
            && NoRepeats(from, n)
            && |n| <= |requested|
            && LastState(from, n) == (if requested == [] then from else requested[|requested| - 1])
    decreases |requested|
  {
    if requested != [] {
      var r, rest := requested[0], requested[1..];
      var step := if r != from then [r] else [];
      NotificationsShape(r, rest);
      assert LastState(from, step) == r;
      NoRepeatsAppend(from, step, Notifications(r, rest));
      assert rest != [] ==> rest[|rest| - 1] == requested[|requested| - 1];
    }
  }

  /**
   * Extending a repeat-free log by the notifications of further requests keeps
   * it repeat-free, adds at most one entry per request, and ends in the last
   * requested state.
   */
  lemma NotificationsExtend(from: ConnectionState, log: seq<ConnectionState>, requested: seq<ConnectionState>)
    requires NoRepeats(from, log)
    ensures var log' := log + Notifications(LastState(from, log), requested);
            && NoRepeats(from, log')
            && |log'| <= |log| + |requested|
            && LastState(from, log') == (if requested == [] then LastState(from, log) else requested[|requested| - 1])
  {
    NotificationsShape(LastState(from, log), requested);
    NoRepeatsAppend(from, log, Notifications(LastState(from, log), requested));
  }

  /** Two requests in a row notify as the first one and then the second from the first's state. */
  lemma NotificationsTwo(from: ConnectionState, a: ConnectionState, b: ConnectionState)
    ensures Notifications(from, [a, b]) == Notifications(from, [a]) + Notifications(a, [b])
  {
    assert [a, b][1..] == [b];
    assert [a][1..] == [];
    assert [b][1..] == [];
  }

  /** The adapter device for an id: the already-connected list is searched before the discovered list. */
  function ConnectTarget(adapterConnected: seq<BleDevice>, adapterDiscovered: seq<BleDevice>, id: string): Option<BleDevice>
  {
    match FirstWithId(adapterConnected, BleId, id)
    case Some(d) => Some(d)
    case None => FirstWithId(adapterDiscovered, BleId, id)
  }

  /**
   * The target carries the requested id; it is the first already-connected
   * device with that id when there is one, else the first discovered one with
   * it, and there is none only when neither list has the id.
   */
  lemma ConnectTargetSpec(adapterConnected: seq<BleDevice>, adapterDiscovered: seq<BleDevice>, id: string)
    ensures var t := ConnectTarget(adapterConnected, adapterDiscovered, id);
            && (t.None? <==> (forall d :: d in adapterConnected ==> d.id != id)
                             && (forall d :: d in adapterDiscovered ==> d.id != id))
            && (t.Some? ==> t.value.id == id
                            && (t.value in adapterConnected || t.value in adapterDiscovered))
            && ((exists d :: d in adapterConnected && d.id == id) ==>
                  t == Some(adapterConnected[FirstIndexWithId(adapterConnected, BleId, id).value]))
            && ((forall d :: d in adapterConnected ==> d.id != id) && (exists d :: d in adapterDiscovered && d.id == id) ==>
                  t == Some(adapterDiscovered[FirstIndexWithId(adapterDiscovered, BleId, id).value]))
  {
    FirstWithIdSpec(adapterConnected, BleId, id);
    FirstWithIdSpec(adapterDiscovered, BleId, id);
  }

  /**
   * A registry entry as the discovery handler creates it: keyed by its own id,
   * with no address, battery, firmware or connection time, and Disconnected.
   */
  predicate NewEntry(id: string, d: GloveDevice)
    reads d
  {
    d.id == id && d.macAddress == "" && d.batteryLevel == 0 && d.connectionState == Disconnected
    && d.firmwareVersion == None && d.lastConnected == None
  }

  /** Every entry of a registry is as the discovery handler creates it, under its own id. */
  predicate NewEntries(m: map<string, GloveDevice>)
    reads m.Values
  {
    forall k :: k in m ==> NewEntry(k, m[k])
  }

  /** Adding a new entry keeps the registry's entries as the handler creates them. */
  lemma NewEntriesAdd(m: map<string, GloveDevice>, k: string, d: GloveDevice)
    requires NewEntries(m) && NewEntry(k, d)
    ensures NewEntries(m[k := d])
  {
  }

  /**
   * The notifications after the first `from` carry exactly the entries of the
   * registry `m`, each entry once.
   */
  predicate NotifiesEach(log: seq<GloveDevice>, from: nat, m: map<string, GloveDevice>)
  {
    from <= |log| && multiset(log[from..]) == multiset(m.Values)
  }

  /** Registering a new entry and notifying it keeps each entry notified once. */
  lemma NotifiesEachAdd(log: seq<GloveDevice>, from: nat, m: map<string, GloveDevice>, k: string, d: GloveDevice)
    requires NotifiesEach(log, from, m) && k !in m && d !in log[from..]
    ensures NotifiesEach(log + [d], from, m[k := d])
  {
    assert (log + [d])[from..] == log[from..] + [d];
    assert d !in multiset(m.Values);
    assert m[k := d].Values == m.Values + {d} by {
      forall v | v in m[k := d].Values ensures v in m.Values + {d} {
        var k' :| k' in m[k := d] && m[k := d][k'] == v;
      }
      forall v | v in m.Values ensures v in m[k := d].Values {
        var k' :| k' in m && m[k'] == v;
        assert m[k := d][k'] == v;
      }
      assert m[k := d][k] == d;
    }
  }

  /** The entries of `m` under `ids`, in the order of `ids`; an id without an entry adds nothing. */
  function EntriesOf(ids: seq<string>, m: map<string, GloveDevice>): seq<GloveDevice>
    decreases |ids|
  {
    if ids == [] then []
    else
      var k := ids[|ids| - 1];
      EntriesOf(ids[..|ids| - 1], m) + (if k in m then [m[k]] else [])
  }

  /** When every listed id has an entry, the i-th entry listed is the one under the i-th id. */
  lemma {:induction false} EntriesOfIndex(ids: seq<string>, m: map<string, GloveDevice>)
    requires forall i :: 0 <= i < |ids| ==> ids[i] in m
    ensures |EntriesOf(ids, m)| == |ids|
    ensures forall i :: 0 <= i < |ids| ==> EntriesOf(ids, m)[i] == m[ids[i]]
    decreases |ids|
  {
    if ids != [] {
      var front := ids[..|ids| - 1];
      EntriesOfIndex(front, m);
      forall i | 0 <= i < |ids| ensures EntriesOf(ids, m)[i] == m[ids[i]] {
        if i < |front| {
          assert ids[i] == front[i];
        }
      }
    }
  }

  /** Adding an entry under an id not listed leaves the listed entries as they are. */
  lemma {:induction false} EntriesOfOther(ids: seq<string>, m: map<string, GloveDevice>, k: string, d: GloveDevice)
    requires k !in ids
    ensures EntriesOf(ids, m[k := d]) == EntriesOf(ids, m)
    decreases |ids|
  {
    if ids != [] {
      assert ids == ids[..|ids| - 1] + [ids[|ids| - 1]];
      EntriesOfOther(ids[..|ids| - 1], m, k, d);
    }
  }

  /**
   * The notifications a scan raised after `log0`, having seen `seen` and built
   * the registry `m`: the registry's entries in the order their ids were first
   * seen, each entry once, one per entry.
   */
  predicate ScanLog(log: seq<GloveDevice>, log0: seq<GloveDevice>, seen: seq<BleDevice>, m: map<string, GloveDevice>)
  {
    && log == log0 + EntriesOf(FirstSeenIds(seen), m)
    && NotifiesEach(log, |log0|, m)
    && |log| == |log0| + |m|
  }

  /** An advertisement that creates an entry appends that entry's notification. */
  lemma ScanLogAdd(log: seq<GloveDevice>, log0: seq<GloveDevice>, seen: seq<BleDevice>, m: map<string, GloveDevice>,
                   ad: BleDevice, d: GloveDevice)
    requires ScanLog(log, log0, seen, m)
    requires IsGloveAdvertisement(ad) && ad.id !in m && d !in log[|log0|..]
    requires ad.id in FirstSeenIds(seen) <==> ad.id in m
    ensures ScanLog(log + [d], log0, seen + [ad], m[ad.id := d])
  {
    assert (seen + [ad])[..|seen|] == seen;
    NotifiesEachAdd(log, |log0|, m, ad.id, d);
    EntriesOfOther(FirstSeenIds(seen), m, ad.id, d);
    var ids := FirstSeenIds(seen) + [ad.id];
    assert ids[..|ids| - 1] == FirstSeenIds(seen);
  }

  /** An advertisement that creates no entry leaves the notifications as they are. */
  lemma ScanLogSkip(log: seq<GloveDevice>, log0: seq<GloveDevice>, seen: seq<BleDevice>, m: map<string, GloveDevice>,
                    ad: BleDevice)
    requires ScanLog(log, log0, seen, m)
    requires !IsGloveAdvertisement(ad) || ad.id in m
    requires ad.id in FirstSeenIds(seen) <==> ad.id in m
    ensures ScanLog(log, log0, seen + [ad], m)
  {
    assert (seen + [ad])[..|seen|] == seen;
  }

  class BluetoothService {
    var state: ConnectionState                 // CurrentConnectionState
    var connectedDevice: GloveDevice?          // ConnectedDevice
    var connectedBle: Option<BleDevice>        // the adapter-level handle of the connection
    var discovered: map<string, GloveDevice>   // the registry of the current scan
    var stateLog: seq<ConnectionState>         // ConnectionStateChanged notifications
    var discoveryLog: seq<GloveDevice>         // DeviceDiscovered notifications
    var adapterCalls: seq<AdapterCall>         // scan, connect and disconnect requests made of the adapter
    var writes: seq<Write>                     // characteristic writes handed to the transport

    /**
     * A handle is only ever held together with a connected device, and the
     * state is the last notification raised (Disconnected before any),
     * with no notification repeating the state before it.
     */
    ghost predicate Valid()
      reads this`connectedBle, this`connectedDevice, this`stateLog, this`state
    {
      && (connectedBle.Some? ==> connectedDevice != null)
      && NoRepeats(Disconnected, stateLog)
      && state == LastState(Disconnected, stateLog)
    }

    constructor ()
      ensures Valid()
      ensures state == Disconnected && connectedDevice == null && connectedBle == None
      ensures discovered == map[] && stateLog == [] && discoveryLog == [] && adapterCalls == [] && writes == []
    {
      state := Disconnected;
      connectedDevice := null;
      connectedBle := None;
      discovered := map[];
      stateLog := [];
      discoveryLog := [];
      adapterCalls := [];
      writes := [];
    }

    /** The registry seen as id to the advertisement that created the entry. */
    function Registry(): map<string, BleDevice>
      reads this, discovered.Values
    {
      map k | k in discovered :: BleDevice(k, Some(discovered[k].name), discovered[k].signalStrength)
    }

    /** Sets the state, notifying only when it changes. */
    method UpdateConnectionState(newState: ConnectionState)
      requires Valid()
      modifies this`state, this`stateLog
      ensures Valid()
      ensures state == newState
      ensures stateLog == old(stateLog) + Notifications(old(state), [newState])
    {
      NotificationsExtend(Disconnected, stateLog, [newState]);
      assert Notifications(state, [newState]) == (if newState != state then [newState] else []) by {
        assert [newState][1..] == [];
      }
      if state != newState {
        state := newState;
        stateLog := stateLog + [newState];
      }
    }

    /**
     * Clears the registry; with the radio off returns nothing and starts no
     * scan; otherwise feeds the advertisements that arrive before the scan
     * ends (by timeout, cancellation or a swallowed transport fault) through
     * the discovery handler and returns the registry.
     */
    method ScanForDevices(radioOn: bool, arrived: seq<BleDevice>) returns (found: map<string, GloveDevice>)
      requires Valid()
      modifies this`discovered, this`discoveryLog, this`adapterCalls
      ensures Valid()
      ensures found == discovered
      ensures Registry() == (if radioOn then AdmitAll(map[], arrived) else map[])
      ensures forall k :: k in found ==> fresh(found[k])
      ensures NewEntries(found)
      ensures adapterCalls == old(adapterCalls) + (if radioOn then [StartScan] else [])
      ensures ScanLog(discoveryLog, old(discoveryLog), if radioOn then arrived else [], found)
    {
      discovered := map[];
      if !radioOn {
        found := discovered;
        return;
      }
      adapterCalls := adapterCalls + [StartScan];
      FeedScan(arrived);
      found := discovered;
    }

    /** The advertisements that arrive during a scan go through the discovery handler in order. */
    method FeedScan(arrived: seq<BleDevice>)
      requires discovered == map[]
      modifies this`discovered, this`discoveryLog
      ensures ScanState(arrived, old(discoveryLog))
      ensures forall k :: k in discovered ==> fresh(discovered[k])
    {
      ghost var seen := [];
      assert ScanState(seen, discoveryLog);
      var i := 0;
      while i < |arrived|
        invariant 0 <= i <= |arrived| && |seen| == i
        invariant forall j :: 0 <= j < i ==> seen[j] == arrived[j]
        invariant ScanState(seen, old(discoveryLog))
        invariant forall k :: k in discovered ==> fresh(discovered[k])
      {
        ScanStep(seen, arrived[i], old(discoveryLog));
        seen := seen + [arrived[i]];
        i := i + 1;
      }
      assert seen == arrived;
    }

    /**
     * What a scan has built after the advertisements `seen`: their registry,
     * entries as the handler creates them, and after the notifications `log0`
     * raised before the scan, one notification per entry carrying that entry,
     * in the order the ids were first seen.
     */
    ghost predicate ScanState(seen: seq<BleDevice>, log0: seq<GloveDevice>)
      reads this, discovered.Values
    {
      && Registry() == AdmitAll(map[], seen)
      && NewEntries(discovered)
      && ScanLog(discoveryLog, log0, seen, discovered)
    }

    /** One advertisement of a scan goes through the discovery handler. */
    method ScanStep(ghost seen: seq<BleDevice>, ad: BleDevice, ghost log0: seq<GloveDevice>)
      requires ScanState(seen, log0)
      modifies this`discovered, this`discoveryLog
      ensures ScanState(seen + [ad], log0)
      ensures forall k :: k in discovered ==> (k in old(discovered) && discovered[k] == old(discovered)[k]) || fresh(discovered[k])
    {
      AdmitAllSnoc(map[], seen, ad);
      FirstSeenIdsSpec(seen);
      ghost var before, log := discovered, discoveryLog;
      assert ad.id in before <==> ad.id in Registry();
      OnDeviceDiscovered(ad);
      if discovered != before {
        NewEntriesAdd(before, ad.id, discovered[ad.id]);
        ScanLogAdd(log, log0, seen, before, ad, discovered[ad.id]);
      } else {
        ScanLogSkip(log, log0, seen, before, ad);
      }
    }

    /**
     * The discovery handler: drops advertisements without a name or whose name
     * does not contain the device prefix; adds a new entry only for an id not
     * yet present (the first record wins) and notifies only then.
     */
    method OnDeviceDiscovered(ad: BleDevice)
      modifies this`discovered, this`discoveryLog
      ensures Registry() == Admit(old(Registry()), ad)
      ensures if IsGloveAdvertisement(ad) && ad.id !in old(discovered) then
                && ad.id in discovered
                && discovered == old(discovered)[ad.id := discovered[ad.id]]
                && fresh(discovered[ad.id])
                && NewEntry(ad.id, discovered[ad.id])
                && discoveryLog == old(discoveryLog) + [discovered[ad.id]]
              else
                discovered == old(discovered) && discoveryLog == old(discoveryLog)
      ensures |discoveryLog| - |old(discoveryLog)| == |discovered| - |old(discovered)|
    {
      if ad.name.None? || ad.name.value == "" || !ContainsIgnoreCase(ad.name.value, DeviceNamePrefix) {
        return;
      }
      var device := new GloveDevice(ad.id, ad.name.value, ad.rssi);
      if ad.id !in discovered {
        discovered := discovered[ad.id := device];
        discoveryLog := discoveryLog + [device];
        assert Registry() == old(Registry())[ad.id := ad];
      }
    }

    /**
     * Connect: always moves to Connecting first; with no adapter device of
     * that id it ends in Error without asking the adapter; otherwise it asks
     * the adapter to connect and on success records the connection, stamps
     * the device and ends in Connected. A DeviceConnectionException ends in
     * Error; any other exception escapes and leaves the state Connecting.
     */
    method ConnectToDevice(device: GloveDevice, adapterConnected: seq<BleDevice>, adapterDiscovered: seq<BleDevice>,
                           outcome: ConnectOutcome, now: int) returns (result: Completion)
      requires Valid()
      modifies this`state, this`stateLog, this`adapterCalls, this`connectedBle, this`connectedDevice, device
      ensures Valid()
      ensures ConnectTarget(adapterConnected, adapterDiscovered, old(device.id)).None? ==>
                && result == Returned(false)
                && state == Error
                && stateLog == old(stateLog) + Notifications(old(state), [Connecting, Error])
                && adapterCalls == old(adapterCalls)
                && connectedBle == old(connectedBle) && connectedDevice == old(connectedDevice)
                && unchanged(device)
      ensures ConnectTarget(adapterConnected, adapterDiscovered, old(device.id)).Some? ==>
                adapterCalls == old(adapterCalls) + [ConnectRequest(ConnectTarget(adapterConnected, adapterDiscovered, old(device.id)).value)]
      ensures ConnectTarget(adapterConnected, adapterDiscovered, old(device.id)).Some? && outcome == ConnectSucceeded ==>
                && result == Returned(true)
                && state == Connected
                && stateLog == old(stateLog) + Notifications(old(state), [Connecting, Connected])
                && connectedBle == ConnectTarget(adapterConnected, adapterDiscovered, old(device.id))
                && connectedDevice == device
                && device.Record() == old(device.Record()).(connectionState := Connected, lastConnected := Some(now))
      ensures ConnectTarget(adapterConnected, adapterDiscovered, old(device.id)).Some? && outcome == DeviceConnectionFailure ==>
                && result == Returned(false)
                && state == Error
                && stateLog == old(stateLog) + Notifications(old(state), [Connecting, Error])
                && connectedBle == old(connectedBle) && connectedDevice == old(connectedDevice)
                && unchanged(device)
      ensures ConnectTarget(adapterConnected, adapterDiscovered, old(device.id)).Some? && outcome == OtherFailure ==>
                && result == Propagated
                && state == Connecting
                && stateLog == old(stateLog) + Notifications(old(state), [Connecting])
                && connectedBle == old(connectedBle) && connectedDevice == old(connectedDevice)
                && unchanged(device)
    {
      ghost var state0 := state;
      UpdateConnectionState(Connecting);
      var target := ConnectTarget(adapterConnected, adapterDiscovered, device.id);
      if target.None? {
        UpdateConnectionState(Error);
        NotificationsTwo(state0, Connecting, Error);
        return Returned(false);
      }
      adapterCalls := adapterCalls + [ConnectRequest(target.value)];
      match outcome {
        case ConnectSucceeded =>
          RecordConnection(target.value, device, now);
          NotificationsTwo(state0, Connecting, Connected);
          result := Returned(true);
        case DeviceConnectionFailure =>
          UpdateConnectionState(Error);
          NotificationsTwo(state0, Connecting, Error);
          result := Returned(false);
        case OtherFailure =>
          result := Propagated;
      }
    }

    /** The success path of connect: the handle and device are recorded, the device stamped, the state Connected. */
    method RecordConnection(target: BleDevice, device: GloveDevice, now: int)
      requires Valid()
      modifies this`state, this`stateLog, this`connectedBle, this`connectedDevice, device
      ensures Valid()
      ensures connectedBle == Some(target) && connectedDevice == device
      ensures device.Record() == old(device.Record()).(connectionState := Connected, lastConnected := Some(now))
      ensures state == Connected && stateLog == old(stateLog) + Notifications(old(state), [Connected])
    {
      connectedBle := Some(target);
      connectedDevice := device;
      device.connectionState := Connected;
      device.lastConnected := Some(now);
      UpdateConnectionState(Connected);
    }

    /**
     * Disconnect: nothing without a handle; otherwise asks the adapter to
     * disconnect and, whether or not that throws, drops the handle and the
     * connected device and ends in Disconnected.
     */
    method Disconnect()
      requires Valid()
      modifies this`state, this`stateLog, this`adapterCalls, this`connectedBle, this`connectedDevice
      ensures Valid()
      ensures old(connectedBle).None? ==> unchanged(this)
      ensures old(connectedBle).Some? ==>
                && adapterCalls == old(adapterCalls) + [DisconnectRequest(old(connectedBle).value)]
                && connectedBle == None && connectedDevice == null
                && state == Disconnected
                && stateLog == old(stateLog) + Notifications(old(state), [Disconnected])
    {
      if connectedBle.Some? {
        adapterCalls := adapterCalls + [DisconnectRequest(connectedBle.value)];
        connectedBle := None;
        connectedDevice := null;
        UpdateConnectionState(Disconnected);
      }
    }

    /** The adapter reports a connection: refreshes the device's cached state and moves to Connected. */
    method OnDeviceConnected()
      requires Valid()
      modifies this`state, this`stateLog, connectedDevice
      ensures Valid()
      ensures state == Connected && stateLog == old(stateLog) + Notifications(old(state), [Connected])
      ensures connectedDevice == old(connectedDevice) && connectedBle == old(connectedBle)
      ensures connectedDevice != null ==>
                connectedDevice.Record() == old(connectedDevice.Record()).(connectionState := Connected)
    {
      if connectedDevice != null {
        connectedDevice.connectionState := Connected;
      }
      UpdateConnectionState(Connected);
    }

    /**
     * The adapter reports a disconnection: drops the handle, refreshes the
     * device's cached state and moves to Disconnected; the device stays recorded.
     */
    method OnDeviceDisconnected()
      requires Valid()
      modifies this`state, this`stateLog, this`connectedBle, connectedDevice
      ensures Valid()
      ensures connectedBle == None && connectedDevice == old(connectedDevice)
      ensures state == Disconnected && stateLog == old(stateLog) + Notifications(old(state), [Disconnected])
      ensures connectedDevice != null ==>
                connectedDevice.Record() == old(connectedDevice.Record()).(connectionState := Disconnected)
    {
      connectedBle := None;
      if connectedDevice != null {
        connectedDevice.connectionState := Disconnected;
      }
      UpdateConnectionState(Disconnected);
    }

    /**
     * The adapter reports a lost connection: drops the handle, refreshes the
     * device's cached state and moves to Error; the device stays recorded.
     */
    method OnDeviceConnectionLost()
      requires Valid()
      modifies this`state, this`stateLog, this`connectedBle, connectedDevice
      ensures Valid()
      ensures connectedBle == None && connectedDevice == old(connectedDevice)
      ensures state == Error && stateLog == old(stateLog) + Notifications(old(state), [Error])
      ensures connectedDevice != null ==>
                connectedDevice.Record() == old(connectedDevice.Record()).(connectionState := Error)
    {
      connectedBle := None;
      if connectedDevice != null {
        connectedDevice.connectionState := Error;
      }
      UpdateConnectionState(Error);
    }

    /**
     * Write: false without a handle; otherwise the bytes go to the transport
     * and the result is whether the transport took them (`delivered` is false
     * when the service or characteristic is missing or the write throws).
     */
    method WriteCharacteristic(service: ServiceId, characteristic: CharacteristicId, data: seq<uint8>, delivered: bool)
      returns (ok: bool)
      requires Valid()
      modifies this`writes
      ensures Valid()
      ensures ok == (connectedBle.Some? && delivered)
      ensures writes == old(writes) + (if connectedBle.Some? then [Write(service, characteristic, data)] else [])
    {
      if connectedBle.None? {
        return false;
      }
      writes := writes + [Write(service, characteristic, data)];
      ok := delivered;
    }

    /**
     * Read: empty without a handle; otherwise what the transport returns
     * (`reply` is empty when the service or characteristic is missing or the read throws).
     */
    method ReadCharacteristic(service: ServiceId, characteristic: CharacteristicId, reply: seq<uint8>)
      returns (data: seq<uint8>)
      ensures connectedBle.None? ==> data == []
      ensures connectedBle.Some? ==> data == reply
    {
      if connectedBle.None? {
        return [];
      }
      data := reply;
    }

    /** Battery level: nothing without a handle or for an empty value, else its first byte, unchecked against 100. */
    method GetBatteryLevel(reply: seq<uint8>) returns (level: Option<int>)
      ensures connectedBle.None? || reply == [] <==> level == None
      ensures level.Some? ==> 0 <= level.value <= 255 && level.value == reply[0] as int
    {
      if connectedBle.None? {
        return None;
      }
      var data := ReadCharacteristic(PrimaryService, BatteryLevel, reply);
      level := DecodeBatteryLevel(data);
    }
  }
}

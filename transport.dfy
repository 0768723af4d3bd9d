/**
 * The abstract radio transport. Its results (device lists, connect outcomes,
 * write and read results, radio on/off) are inputs to the operations that use it.
 */
module Transport {
  import opened Wrappers
  import opened Models

  /** A transport-level device as it advertises itself: id, optional name and RSSI. */
  datatype BleDevice = BleDevice(id: string, name: Option<string>, rssi: int)

  function BleId(d: BleDevice): string { d.id }

  /** The GATT service used by the glove (the UUID values are opaque). */
  datatype ServiceId = PrimaryService

  /** The glove's characteristics, distinct abstract identifiers. */
  datatype CharacteristicId = VibrationControl | BatteryLevel | DeviceStatus | PatternConfig

  /** One write handed to the transport. */
  datatype Write = Write(service: ServiceId, characteristic: CharacteristicId, data: seq<uint8>)

  /** A request the connection manager makes of the radio adapter. */
  datatype AdapterCall =
    | StartScan
    | ConnectRequest(device: BleDevice)     // autoConnect false, forced direct transport
    | DisconnectRequest(device: BleDevice)

  /** How the transport's connect call ends. */
  datatype ConnectOutcome =
    | ConnectSucceeded
    | DeviceConnectionFailure   // a DeviceConnectionException
    | OtherFailure              // any other exception, which the connect operation does not catch

  /** How an operation that may let an exception escape ends. */
  datatype Completion = Returned(success: bool) | Propagated
}

/**
 * The entities of the glove controller: the connection state, the vibration
 * pattern and the glove device (both mutable objects in the system), and the
 * value snapshots that the storage layer keeps of them and of therapy sessions.
 * Clock readings are integer tick counts supplied by the caller.
 */
module Models {
  import opened Wrappers

  /** The four states of the connection manager. */
  datatype ConnectionState = Disconnected | Connecting | Connected | Error

  /** One octet of a frame or of a characteristic value. */
  newtype uint8 = x: int | 0 <= x < 256

  /**
   * Math.Clamp(value, lo, hi): the point of [lo, hi] nearest to `value`.
   */
  function Clamp(value: int, lo: int, hi: int): (r: int)
    requires lo <= hi
    ensures lo <= r <= hi
    ensures forall x :: lo <= x <= hi ==> Dist(r, value) <= Dist(x, value)
  {
    if value < lo then lo else if value > hi then hi else value
  }

  function Dist(a: int, b: int): nat
  {
    if a <= b then b - a else a - b
  }

  /** The actuator parameters of a pattern (what the command frame is built from, plus the interval). */
  datatype Settings = Settings(
    intensity: int,
    durationMs: int,
    frequencyHz: int,
    isContinuous: bool,
    intervalMs: int)

  /** A stored (serialised) copy of a vibration pattern. */
  datatype PatternRecord = PatternRecord(
    id: string,
    name: string,
    description: Option<string>,
    settings: Settings,
    isActive: bool)

  /** A stored (serialised) copy of a glove device. */
  datatype DeviceRecord = DeviceRecord(
    id: string,
    name: string,
    macAddress: string,
    batteryLevel: int,
    connectionState: ConnectionState,
    firmwareVersion: Option<string>,
    signalStrength: int,
    lastConnected: Option<int>)

  /** A therapy session; times are tick counts. The derived Duration reads the clock and is not modelled. */
  datatype Session = Session(
    id: string,
    startTime: int,
    endTime: Option<int>,
    patternUsed: Option<PatternRecord>,
    patternId: Option<string>,
    notes: Option<string>,
    deviceId: Option<string>,
    isCompleted: bool,
    effectivenessRating: Option<int>)

  /** The key of a session in the session list. */
  function SessionId(s: Session): string { s.id }

  /** The key of a pattern in the pattern list. */
  function PatternId(p: PatternRecord): string { p.id }

  const DefaultIntensity := 50
  const DefaultDurationMs := 1000
  const DefaultFrequencyHz := 100
  const DefaultIntervalMs := 500

  /**
   * A vibration pattern. The controller keeps a reference to the pattern it
   * started and mutates that same object (IsActive, Intensity), so it is a class.
   */
  class VibrationPattern {
    var id: string
    var name: string
    var description: Option<string>
    var intensity: int
    var durationMs: int
    var frequencyHz: int
    var isActive: bool
    var intervalMs: int
    var isContinuous: bool

    /** A new pattern with the property initialisers' defaults; `id` stands for the fresh Guid. */
    constructor (id: string)
      ensures this.id == id && name == "" && description == None
      ensures intensity == DefaultIntensity && durationMs == DefaultDurationMs
      ensures frequencyHz == DefaultFrequencyHz && intervalMs == DefaultIntervalMs
      ensures isContinuous && !isActive
    {
      this.id := id;
      name := "";
      description := None;
      intensity := DefaultIntensity;
      durationMs := DefaultDurationMs;
      frequencyHz := DefaultFrequencyHz;
      isActive := false;
      intervalMs := DefaultIntervalMs;
      isContinuous := true;
    }

    function Parameters(): Settings
      reads this
    {
      Settings(intensity, durationMs, frequencyHz, isContinuous, intervalMs)
    }

    /** What serialising this pattern stores. */
    function Record(): PatternRecord
      reads this
    {
      PatternRecord(id, name, description, Parameters(), isActive)
    }
  }

  /** A glove device as seen by the application; its connection state is a cached copy. */
  class GloveDevice {
    var id: string
    var name: string
    var macAddress: string
    var batteryLevel: int
    var connectionState: ConnectionState
    var firmwareVersion: Option<string>
    var signalStrength: int
    var lastConnected: Option<int>

    /** The record built for an accepted advertisement: id, name and signal strength, state Disconnected. */
    constructor (id: string, name: string, signalStrength: int)
      ensures this.id == id && this.name == name && this.signalStrength == signalStrength
      ensures macAddress == "" && batteryLevel == 0 && connectionState == Disconnected
      ensures firmwareVersion == None && lastConnected == None
    {
      this.id := id;
      this.name := name;
      macAddress := "";
      batteryLevel := 0;
      connectionState := Disconnected;
      firmwareVersion := None;
      this.signalStrength := signalStrength;
      lastConnected := None;
    }

    /** What serialising this device stores. */
    function Record(): DeviceRecord
      reads this
    {
      DeviceRecord(id, name, macAddress, batteryLevel, connectionState, firmwareVersion, signalStrength, lastConnected)
    }
  }
}

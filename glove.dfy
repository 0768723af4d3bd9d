/**
 * The glove controller: the built-in pattern catalogue and the vibration
 * interlock. Start and stop are only attempted while the connection manager
 * reports Connected; the controller's own state (vibrating, current pattern,
 * the pattern's active flag) changes only when the transport took the frame.
 * The controller keeps a reference to the caller's pattern object and
 * mutates it in place.
 */
module Glove {
  import opened Wrappers
  import opened Models
  import opened Transport
  import opened Codec
  import opened Bluetooth

  /** A catalogue entry: what the pattern initialiser sets besides the fresh id. */
  datatype Preset = Preset(name: string, description: string, settings: Settings)

  /** The five built-in patterns, in the order they are offered. */
  function DefaultPresets(): seq<Preset>
  {
    [ Preset("Gentle", "Low intensity, continuous vibration", Settings(30, 1000, 80, true, DefaultIntervalMs)),
      Preset("Moderate", "Medium intensity, continuous vibration", Settings(50, 1000, 100, true, DefaultIntervalMs)),
      Preset("Strong", "High intensity, continuous vibration", Settings(75, 1000, 120, true, DefaultIntervalMs)),
      Preset("Pulsed", "Medium intensity, pulsed vibration", Settings(50, 500, 100, false, 500)),
      Preset("Rapid Pulse", "Medium intensity, rapid pulsed vibration", Settings(60, 200, 120, false, 200)) ]
  }

  /** The brief pulse of the connection test; interval and description keep their defaults. */
  const TestSettings := Settings(50, 200, 100, false, DefaultIntervalMs)

  /** What the controller hands to the transport to start a pattern. */
  function StartWrite(s: Settings): Write
  {
    Write(PrimaryService, VibrationControl, BuildVibrationCommand(s, true))
  }

  /** What the controller hands to the transport to stop. */
  const StopWrite := Write(PrimaryService, VibrationControl, StopFrame)

  /**
   * Every built-in pattern is within the frame's ranges, so its start frame
   * carries its intensity, duration, frequency and mode exactly; the five
   * names are distinct.
   */
  lemma DefaultPresetsEncodeExactly()
    ensures |DefaultPresets()| == 5
    ensures forall i, j :: 0 <= i < j < |DefaultPresets()| ==> DefaultPresets()[i].name != DefaultPresets()[j].name
    ensures forall p :: p in DefaultPresets() ==>
              ParseCommand(BuildVibrationCommand(p.settings, true))
              == Some(StartCommand(p.settings.intensity, p.settings.durationMs, p.settings.frequencyHz, p.settings.isContinuous))
  {
    forall p | p in DefaultPresets()
      ensures ParseCommand(BuildVibrationCommand(p.settings, true))
              == Some(StartCommand(p.settings.intensity, p.settings.durationMs, p.settings.frequencyHz, p.settings.isContinuous))
    {
      StartFrameExact(p.settings);
    }
  }

  /** "Gentle" is sent as start, 30 %, 1000 ms little-endian (0xE8 0x03), 80 Hz, continuous. */
  lemma GentleFrame()
    ensures DefaultPresets()[0].name == "Gentle"
    ensures BuildVibrationCommand(DefaultPresets()[0].settings, true) == [0x01, 0x1E, 0xE8, 0x03, 0x50, 0x00]
  {
  }

  /** A pattern object as an initialiser creates it: the given fields, the rest at their defaults, inactive. */
  method NewPattern(id: string, name: string, description: Option<string>, s: Settings) returns (p: VibrationPattern)
    ensures fresh(p)
    ensures p.Record() == PatternRecord(id, name, description, s, false)
  {
    p := new VibrationPattern(id);
    p.name := name;
    p.description := description;
    p.intensity := s.intensity;
    p.durationMs := s.durationMs;
    p.frequencyHz := s.frequencyHz;
    p.isContinuous := s.isContinuous;
    p.intervalMs := s.intervalMs;
  }

  /**
   * The catalogue as new pattern objects, one per preset in order; `ids`
   * stands for the fresh Guids the objects receive.
   */
  method GetDefaultPatterns(ids: seq<string>) returns (patterns: seq<VibrationPattern>)
    requires |ids| == |DefaultPresets()|
    ensures |patterns| == |DefaultPresets()|
    ensures forall i :: 0 <= i < |patterns| ==>
              fresh(patterns[i])
              && patterns[i].Record()
                 == PatternRecord(ids[i], DefaultPresets()[i].name, Some(DefaultPresets()[i].description),
                                  DefaultPresets()[i].settings, false)
    ensures forall i, j :: 0 <= i < j < |patterns| ==> patterns[i] != patterns[j]
  {
    var ps := DefaultPresets();
    var p0 := NewPattern(ids[0], ps[0].name, Some(ps[0].description), ps[0].settings);
    var p1 := NewPattern(ids[1], ps[1].name, Some(ps[1].description), ps[1].settings);
    var p2 := NewPattern(ids[2], ps[2].name, Some(ps[2].description), ps[2].settings);
    var p3 := NewPattern(ids[3], ps[3].name, Some(ps[3].description), ps[3].settings);
    var p4 := NewPattern(ids[4], ps[4].name, Some(ps[4].description), ps[4].settings);
    patterns := [p0, p1, p2, p3, p4];
  }

  class GloveControlService {
    const bluetooth: BluetoothService
    var isVibrating: bool                    // IsVibrating
    var currentPattern: VibrationPattern?    // CurrentPattern
    var vibrationLog: seq<bool>              // VibrationStateChanged notifications

    /**
     * The controller vibrates exactly when it holds a current pattern, and
     * that pattern is marked active.
     */
    ghost predicate Valid()
      reads this, bluetooth, currentPattern
    {
      && bluetooth.Valid()
      && (isVibrating <==> currentPattern != null)
      && (currentPattern != null ==> currentPattern.isActive)
    }

    constructor (bluetooth: BluetoothService)
      requires bluetooth.Valid()
      ensures Valid()
      ensures this.bluetooth == bluetooth
      ensures !isVibrating && currentPattern == null && vibrationLog == []
    {
      this.bluetooth := bluetooth;
      isVibrating := false;
      currentPattern := null;
      vibrationLog := [];
    }

    /** The controller only talks to the glove while the connection manager reports Connected. */
    ghost predicate Connected()
      reads bluetooth
    {
      bluetooth.state == ConnectionState.Connected
    }

    /**
     * Start: nothing and false unless Connected; otherwise the start frame of
     * the pattern goes to the transport, and only if it was taken does the
     * pattern become current and active, with a `true` notification.
     */
    method StartVibration(pattern: VibrationPattern, delivered: bool) returns (ok: bool)
      requires Valid()
      modifies this`isVibrating, this`currentPattern, this`vibrationLog, pattern, bluetooth`writes
      ensures Valid()
      ensures ok == (old(Connected()) && bluetooth.connectedBle.Some? && delivered)
      ensures bluetooth.writes == old(bluetooth.writes)
                + (if old(Connected()) && bluetooth.connectedBle.Some? then [StartWrite(old(pattern.Parameters()))] else [])
      ensures ok ==>
                && isVibrating && currentPattern == pattern
                && pattern.Record() == old(pattern.Record()).(isActive := true)
                && vibrationLog == old(vibrationLog) + [true]
      ensures !ok ==>
                && isVibrating == old(isVibrating) && currentPattern == old(currentPattern)
                && unchanged(pattern)
                && vibrationLog == old(vibrationLog)
      ensures old(currentPattern) != null && old(currentPattern) != pattern ==> unchanged(old(currentPattern))
    {
      if bluetooth.state != ConnectionState.Connected {
        return false;
      }
      var command := BuildVibrationCommand(pattern.Parameters(), true);
      var success := bluetooth.WriteCharacteristic(PrimaryService, VibrationControl, command, delivered);
      if success {
        isVibrating := true;
        currentPattern := pattern;
        pattern.isActive := true;
        vibrationLog := vibrationLog + [true];
      }
      ok := success;
    }

    /**
     * Stop: nothing and false unless Connected; otherwise the stop frame goes
     * to the transport even when nothing vibrates, and only if it was taken
     * is the current pattern (if any) marked inactive and dropped, with a
     * `false` notification.
     */
    method StopVibration(delivered: bool) returns (ok: bool)
      requires Valid()
      modifies this`isVibrating, this`currentPattern, this`vibrationLog, currentPattern, bluetooth`writes
      ensures Valid()
      ensures ok == (old(Connected()) && bluetooth.connectedBle.Some? && delivered)
      ensures bluetooth.writes == old(bluetooth.writes)
                + (if old(Connected()) && bluetooth.connectedBle.Some? then [StopWrite] else [])
      ensures ok ==>
                && !isVibrating && currentPattern == null
                && (old(currentPattern) != null ==>
                      old(currentPattern).Record() == old(currentPattern.Record()).(isActive := false))
                && vibrationLog == old(vibrationLog) + [false]
      ensures !ok ==>
                && isVibrating == old(isVibrating) && currentPattern == old(currentPattern)
                && (old(currentPattern) != null ==> unchanged(old(currentPattern)))
                && vibrationLog == old(vibrationLog)
    {
      if bluetooth.state != ConnectionState.Connected {
        return false;
      }
      var success := bluetooth.WriteCharacteristic(PrimaryService, VibrationControl, StopFrame, delivered);
      if success {
        isVibrating := false;
        if currentPattern != null {
          currentPattern.isActive := false;
        }
        currentPattern := null;
        vibrationLog := vibrationLog + [false];
      }
      ok := success;
    }

    /**
     * Intensity: false and nothing changed without a vibrating current
     * pattern; otherwise the pattern's intensity becomes the clamped value,
     * whatever happens next, and the pattern is restarted; the frame sent
     * carries that intensity.
     */
    method SetIntensity(value: int, delivered: bool) returns (ok: bool)
      requires Valid()
      modifies this`isVibrating, this`currentPattern, this`vibrationLog, currentPattern, bluetooth`writes
      ensures Valid()
      ensures old(currentPattern) == null || !old(isVibrating) ==>
                && !ok
                && isVibrating == old(isVibrating) && currentPattern == old(currentPattern)
                && vibrationLog == old(vibrationLog) && bluetooth.writes == old(bluetooth.writes)
      ensures old(currentPattern) != null && old(isVibrating) ==>
                var p := old(currentPattern);
                var s := old(p.Parameters()).(intensity := Clamp(value, 0, MaxIntensity));
                && p.Record() == old(p.Record()).(settings := s)
                && currentPattern == p && isVibrating
                && ok == (old(Connected()) && bluetooth.connectedBle.Some? && delivered)
                && bluetooth.writes == old(bluetooth.writes)
                     + (if old(Connected()) && bluetooth.connectedBle.Some? then [StartWrite(s)] else [])
                && vibrationLog == old(vibrationLog) + (if ok then [true] else [])
                && ParseCommand(StartWrite(s).data) == Some(Normalized(s))
                && Normalized(s).intensity == Clamp(value, 0, MaxIntensity)
    {
      if currentPattern == null || !isVibrating {
        return false;
      }
      var p := currentPattern;
      p.intensity := Clamp(value, 0, MaxIntensity);
      StartFrameRoundTrip(p.Parameters());
      ok := StartVibration(p, delivered);
    }

    /** The controller's battery level is the connection manager's. */
    method GetBatteryLevel(reply: seq<uint8>) returns (level: Option<int>)
      ensures bluetooth.connectedBle.None? || reply == [] <==> level == None
      ensures level.Some? ==> 0 <= level.value <= 255 && level.value == reply[0] as int
    {
      level := bluetooth.GetBatteryLevel(reply);
    }

    /**
     * Connection test: starts a fresh brief pulsed pattern and, only if that
     * start succeeded, stops again; the result is the start's. `testId`
     * stands for the test pattern's fresh Guid; the delay between the two is
     * not modelled.
     */
    method TestConnection(testId: string, startDelivered: bool, stopDelivered: bool) returns (started: bool)
      requires Valid()
      modifies this`isVibrating, this`currentPattern, this`vibrationLog, bluetooth`writes
      ensures Valid()
      ensures started == (old(Connected()) && bluetooth.connectedBle.Some? && startDelivered)
      ensures !started ==>
                && isVibrating == old(isVibrating) && currentPattern == old(currentPattern)
                && vibrationLog == old(vibrationLog)
                && bluetooth.writes == old(bluetooth.writes)
                     + (if old(Connected()) && bluetooth.connectedBle.Some? then [StartWrite(TestSettings)] else [])
      ensures started ==>
                && bluetooth.writes == old(bluetooth.writes) + [StartWrite(TestSettings), StopWrite]
                && vibrationLog == old(vibrationLog) + [true] + (if stopDelivered then [false] else [])
                && (stopDelivered ==> !isVibrating && currentPattern == null)
                && (!stopDelivered ==>
                      && isVibrating && currentPattern != null && fresh(currentPattern)
                      && currentPattern.Record() == PatternRecord(testId, "Test", None, TestSettings, true))
    {
      var testPattern := NewPattern(testId, "Test", None, TestSettings);
      started := StartVibration(testPattern, startDelivered);
      if started {
        var _ := StopVibration(stopDelivered);
      }
    }
  }
}

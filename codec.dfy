/**
 * The command codec: the placeholder vibration frame layout and the battery
 * level decode. `ParseCommand` is how a receiver reads the layout; it is the
 * reference the encoder is proved against.
 */
module Codec {
  import opened Wrappers
  import opened Models

  const StartOpcode: uint8 := 0x01
  const StopOpcode: uint8 := 0x00
  const MaxIntensity := 100
  const MaxFrequency := 255

  /** The stop frame: the single stop opcode. */
  const StopFrame: seq<uint8> := [StopOpcode]

  /**
   * The start frame is opcode, clamped intensity, duration low byte, duration
   * high byte, clamped frequency, mode (0 continuous, 1 pulsed). The two
   * duration bytes are `d & 0xFF` and `(d >> 8) & 0xFF` on a two's-complement
   * int; with a positive divisor Dafny's `/` and `%` floor, which is the same.
   */
  function BuildVibrationCommand(s: Settings, isStart: bool): (frame: seq<uint8>)
    ensures !isStart ==> frame == StopFrame
    ensures isStart ==> |frame| == 6 && frame[0] == StartOpcode
  {
    if !isStart then
      [StopOpcode]
    else
      [ StartOpcode,
        Clamp(s.intensity, 0, MaxIntensity) as uint8,
        (s.durationMs % 256) as uint8,
        ((s.durationMs / 256) % 256) as uint8,
        Clamp(s.frequencyHz, 0, MaxFrequency) as uint8,
        if s.isContinuous then 0x00 else 0x01 ]
  }

  /** A decoded command. */
  datatype Command =
    | StartCommand(intensity: int, durationMs: int, frequencyHz: int, continuous: bool)
    | StopCommand

  /** A receiver's reading of a frame; None for anything the layout does not produce. */
  function ParseCommand(frame: seq<uint8>): Option<Command>
  {
    if frame == StopFrame then Some(StopCommand)
    else if |frame| == 6 && frame[0] == StartOpcode && frame[1] as int <= MaxIntensity && frame[5] <= 1 then
      Some(StartCommand(frame[1] as int, frame[2] as int + 256 * frame[3] as int, frame[4] as int, frame[5] == 0))
    else None
  }

  /** The command a start frame carries: the pattern's fields after clamping and 16-bit truncation. */
  function Normalized(s: Settings): Command
  {
    StartCommand(Clamp(s.intensity, 0, MaxIntensity), s.durationMs % 65536,
                 Clamp(s.frequencyHz, 0, MaxFrequency), s.isContinuous)
  }

  /** The two duration bytes are the 16-bit little-endian encoding of the duration modulo 65536. */
  lemma LittleEndianDuration(d: int)
    ensures d % 256 + 256 * ((d / 256) % 256) == d % 65536
  {
    var q, r := d / 256, d % 256;
    var hi, lo := q / 256, q % 256;
    assert d == 256 * q + r;
    assert q == 256 * hi + lo;
    assert d == 65536 * hi + (256 * lo + r);
    assert 0 <= 256 * lo + r < 65536;
    DivModUnique(d, 65536, hi, 256 * lo + r);
  }

  /** Euclidean division by 256 or 65536 is determined by quotient and remainder. */
  lemma DivModUnique(a: int, b: int, q: int, r: int)
    requires b == 256 || b == 65536
    requires 0 <= r < b && a == b * q + r
    ensures a / b == q && a % b == r
  {
  }

  /** Decoding a start frame gives back the normalised pattern fields. */
  lemma StartFrameRoundTrip(s: Settings)
    ensures ParseCommand(BuildVibrationCommand(s, true)) == Some(Normalized(s))
  {
    var f := BuildVibrationCommand(s, true);
    LittleEndianDuration(s.durationMs);
    assert f != StopFrame;
    assert f[2] as int + 256 * f[3] as int == s.durationMs % 65536;
  }

  /** A pattern whose fields are already in range is carried by its start frame exactly. */
  lemma StartFrameExact(s: Settings)
    requires 0 <= s.intensity <= MaxIntensity && 0 <= s.durationMs < 65536 && 0 <= s.frequencyHz <= MaxFrequency
    ensures ParseCommand(BuildVibrationCommand(s, true))
         == Some(StartCommand(s.intensity, s.durationMs, s.frequencyHz, s.isContinuous))
  {
    StartFrameRoundTrip(s);
  }

  /**
   * The frame depends only on intensity, duration, frequency and mode (not on
   * the interval), and two patterns get the same frame exactly when their
   * normalised fields agree.
   */
  lemma StartFrameDeterminedByNormalized(s: Settings, t: Settings)
    ensures BuildVibrationCommand(s, true) == BuildVibrationCommand(t, true) <==> Normalized(s) == Normalized(t)
  {
    StartFrameRoundTrip(s);
    StartFrameRoundTrip(t);
    if Normalized(s) == Normalized(t) {
      var f, g := BuildVibrationCommand(s, true), BuildVibrationCommand(t, true);
      LittleEndianDuration(s.durationMs);
      LittleEndianDuration(t.durationMs);
      assert f[2] == g[2] by {
        assert s.durationMs % 256 == (s.durationMs % 65536) % 256 by { ModOfMod(s.durationMs); }
        assert t.durationMs % 256 == (t.durationMs % 65536) % 256 by { ModOfMod(t.durationMs); }
      }
      assert f[3] == g[3];
      assert f == g;
    }
  }

  lemma ModOfMod(d: int)
    ensures d % 256 == (d % 65536) % 256
  {
    var hi, m := d / 65536, d % 65536;
    assert d == 65536 * hi + m;
    assert d == 256 * (256 * hi + m / 256) + m % 256;
    DivModUnique(d, 256, 256 * hi + m / 256, m % 256);
  }

  /** The stop frame is a single stop opcode and no start frame is a stop frame. */
  lemma StopFrameDistinct(s: Settings)
    ensures ParseCommand(BuildVibrationCommand(s, false)) == Some(StopCommand)
    ensures BuildVibrationCommand(s, true) != StopFrame
  {
  }

  /**
   * The battery level is the first byte of the value read, unvalidated (0..255,
   * not checked against 100); nothing for an empty buffer.
   */
  function DecodeBatteryLevel(data: seq<uint8>): (level: Option<int>)
    ensures level.None? <==> data == []
    ensures level.Some? ==> 0 <= level.value <= 255 && level.value == data[0] as int
  {
    if |data| > 0 then Some(data[0] as int) else None
  }
}

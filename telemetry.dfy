/**
 * Decoding of an eight-byte telemetry frame
 *   [255][254][leftHi][leftLo][rightHi][rightLo][voltHi][voltLo]
 * into wheel angular speeds (rad/s) and battery voltage.  `pi` stands for
 * the platform's value of the circle constant.
 */
module Telemetry {
  import opened Bytes
  import Kinematics

  /** A big-endian unsigned 16-bit field, read as hi*256 + lo. */
  function U16BE(hi: Byte, lo: Byte): (v: int)
    ensures 0 <= v < 65536
  {
    hi * 256 + lo
  }

  /** The two bytes a 16-bit value is sent as, high byte first. */
  function SplitU16(v: int): (bs: (Byte, Byte))
    requires 0 <= v < 65536
  {
    (v / 256, v % 256)
  }

  /** Every decoded field lies in [0, 65535], and splitting it gives back its bytes. */
  lemma U16RoundTrip(hi: Byte, lo: Byte)
    ensures 0 <= U16BE(hi, lo) <= 65535
    ensures SplitU16(U16BE(hi, lo)) == (hi, lo)
  {
  }

  /** Joining the split bytes of a 16-bit value gives back the value. */
  lemma SplitRoundTrip(v: int)
    requires 0 <= v < 65536
    ensures U16BE(SplitU16(v).0, SplitU16(v).1) == v
  {
  }

  /** Offset of the wheel encoder field: a raw value of 500 means standstill. */
  const WheelZero: int := 500

  /** Radians per second represented by one tick: 100/1560 * 2*pi. */
  function RadPerTick(pi: real): real
  {
    100.0 / 1560.0 * 2.0 * pi
  }

  /** Angular speed of a wheel for a raw encoder field. */
  function WheelSpeed(raw: int, pi: real): (w: real)
    ensures raw == WheelZero ==> w == 0.0
  {
    (raw - WheelZero) as real * RadPerTick(pi)
  }

  /**
   * A raw value of 500 means standstill, and the decoded speed has the sign
   * of raw - 500.
   */
  lemma WheelSpeedSign(raw: int, pi: real)
    requires pi > 0.0
    ensures raw == WheelZero <==> WheelSpeed(raw, pi) == 0.0
    ensures raw > WheelZero <==> WheelSpeed(raw, pi) > 0.0
    ensures raw < WheelZero <==> WheelSpeed(raw, pi) < 0.0
  {
  }

  /** Measured wheel speeds of a frame (left, right): bytes 2-3 and 4-5. */
  function DecodeWheels(frame: seq<Byte>, pi: real): (w: Kinematics.Wheels)
    requires |frame| == 8
    ensures frame[2] == frame[4] && frame[3] == frame[5] ==> w.left == w.right
  {
    Kinematics.Wheels(WheelSpeed(U16BE(frame[2], frame[3]), pi), WheelSpeed(U16BE(frame[4], frame[5]), pi))
  }

  /**
   * The telemetry frame the board sends for raw left-wheel, right-wheel and
   * battery values: the header pair, then each value high byte first.
   */
  function TelemetryFrame(left: int, right: int, battery: int): (f: seq<Byte>)
    requires 0 <= left < 65536 && 0 <= right < 65536 && 0 <= battery < 65536
    ensures |f| == 8 && f[0] == HeaderHi && f[1] == HeaderLo
  {
    [HeaderHi, HeaderLo, SplitU16(left).0, SplitU16(left).1,
     SplitU16(right).0, SplitU16(right).1, SplitU16(battery).0, SplitU16(battery).1]
  }

  /** Battery voltage of a frame: bytes 6-7 in hundredths of a volt. */
  function DecodeVoltage(frame: seq<Byte>): (v: real)
    requires |frame| == 8
    ensures 0.0 <= v <= 655.35
    ensures v * 100.0 == U16BE(frame[6], frame[7]) as real
  {
    U16RoundTrip(frame[6], frame[7]);
    U16BE(frame[6], frame[7]) as real / 100.0
  }

  /**
   * Decoding the frame built from raw values gives back those values: the
   * left speed comes from the first field, the right speed from the second,
   * and the voltage from the third.
   */
  lemma TelemetryFrameRoundTrip(left: int, right: int, battery: int, pi: real)
    requires 0 <= left < 65536 && 0 <= right < 65536 && 0 <= battery < 65536
    ensures DecodeWheels(TelemetryFrame(left, right, battery), pi) ==
      Kinematics.Wheels(WheelSpeed(left, pi), WheelSpeed(right, pi))
    ensures DecodeVoltage(TelemetryFrame(left, right, battery)) * 100.0 == battery as real
  {
    var f := TelemetryFrame(left, right, battery);
    SplitRoundTrip(left);
    SplitRoundTrip(right);
    SplitRoundTrip(battery);
    assert U16BE(f[2], f[3]) == left && U16BE(f[4], f[5]) == right && U16BE(f[6], f[7]) == battery;
  }

  /** The battery bytes (0x01, 0x90) are the value 400, that is 4.00 volts. */
  lemma VoltageExample(frame: seq<Byte>)
    requires |frame| == 8 && frame[6] == 0x01 && frame[7] == 0x90
    ensures U16BE(frame[6], frame[7]) == 400
    ensures DecodeVoltage(frame) == 4.0
  {
  }

  /**
   * The battery report of one tick: a voltage only for a present frame of
   * exactly eight bytes; otherwise nothing is reported.
   */
  function BatteryReport(data: Option<seq<Byte>>): (r: Option<real>)
    ensures r.Some? <==> data.Some? && |data.value| == 8
    ensures r.Some? ==> r.value * 100.0 == U16BE(data.value[6], data.value[7]) as real
  {
    if data.Some? && |data.value| == 8 then Some(DecodeVoltage(data.value)) else None
  }
}

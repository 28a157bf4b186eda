/**
 * The command encoder: target wheel speeds are converted to encoder ticks,
 * truncated toward zero, split into a magnitude and a direction flag,
 * saturated at 255 and laid out as [255, 254, Lmag, Ldir, Rmag, Rdir].
 */
module CommandEncoding {
  import opened Bytes
  import opened Kinematics
  import Telemetry

  /** Direction flags of the output frame. */
  const ReverseFlag: Byte := 0
  const ForwardFlag: Byte := 1

  /** Largest magnitude one byte can carry. */
  const MaxMagnitude: int := 255

  function Abs(x: int): nat { if x < 0 then -x else x }

  /** Conversion to an integer that truncates toward zero, as a float-to-int cast does. */
  function Trunc(x: real): (n: int)
    ensures x >= 0.0 ==> 0.0 <= n as real <= x < n as real + 1.0
    ensures x < 0.0 ==> n as real - 1.0 < x <= n as real <= 0.0
  {
    if x >= 0.0 then x.Floor else -((-x).Floor)
  }

  /** A wheel speed in rad/s expressed in encoder ticks: w / 100 * 1560 / 2 / pi. */
  function ToTicks(w: real, pi: real): (ticks: real)
    requires pi > 0.0
    ensures ticks == 0.0 <==> w == 0.0
    ensures ticks > 0.0 <==> w > 0.0
  {
    w / 100.0 * 1560.0 / 2.0 / pi
  }

  /**
   * The tick conversion of the encoder undoes the decoder's: a decoded
   * speed converts back to its raw offset from 500, so the two factors are
   * reciprocal.
   */
  lemma TickFactorsReciprocal(raw: int, pi: real)
    requires pi > 0.0
    ensures Telemetry.RadPerTick(pi) * ToTicks(1.0, pi) == 1.0
    ensures ToTicks(Telemetry.WheelSpeed(raw, pi), pi) == (raw - Telemetry.WheelZero) as real
  {
  }

  /** Magnitude byte of a signed tick value: its absolute value, saturated at 255. */
  function Magnitude(ticks: int): (m: Byte)
    ensures m as int == if Abs(ticks) <= MaxMagnitude then Abs(ticks) else MaxMagnitude
  {
    var a := if ticks < 0 then -ticks else ticks;
    if a > MaxMagnitude then MaxMagnitude else a
  }

  /** Direction byte of a signed tick value: 1 (forward) for zero and above, 0 otherwise. */
  function Direction(ticks: int): (d: Byte)
    ensures d == ForwardFlag <==> ticks >= 0
    ensures d == ReverseFlag <==> ticks < 0
  {
    if ticks < 0 then ReverseFlag else ForwardFlag
  }

  /** The six-byte output frame for signed left and right tick values. */
  function CommandFrame(left: int, right: int): (out: seq<Byte>)
    ensures |out| == 6 && out[0] == HeaderHi && out[1] == HeaderLo
    ensures out[2] == Magnitude(left) && out[3] == Direction(left)
    ensures out[4] == Magnitude(right) && out[5] == Direction(right)
  {
    [HeaderHi, HeaderLo, Magnitude(left), Direction(left), Magnitude(right), Direction(right)]
  }

  /** Signed ticks of the wheel targets of a commanded twist (left, right). */
  function CommandTicks(t: Twist, g: Geometry, pi: real): (ticks: (int, int))
    requires g.Valid() && pi > 0.0
    ensures t.vyaw == 0.0 ==> ticks.0 == ticks.1
    ensures t.vx == 0.0 ==> ticks.0 == -ticks.1
  {
    var w := Inverse(t, g);
    assert t.vx == 0.0 ==> ToTicks(w.left, pi) == -ToTicks(w.right, pi);
    (Trunc(ToTicks(w.left, pi)), Trunc(ToTicks(w.right, pi)))
  }

  /** The frame sent for a commanded twist. */
  function EncodeCommand(t: Twist, g: Geometry, pi: real): (out: seq<Byte>)
    requires g.Valid() && pi > 0.0
    ensures |out| == 6 && out[0] == HeaderHi && out[1] == HeaderLo
    ensures t.vyaw == 0.0 ==> out[2..4] == out[4..6]
  {
    var ticks := CommandTicks(t, g, pi);
    CommandFrame(ticks.0, ticks.1)
  }

  /** The signed tick value a receiver reads back from a magnitude and a direction. */
  function Signed(mag: Byte, dir: Byte): int
  {
    if dir == ReverseFlag then -(mag as int) else mag as int
  }

  function Clamp(x: int, lo: int, hi: int): int
    requires lo <= hi
  {
    if x < lo then lo else if x > hi then hi else x
  }

  /**
   * Saturation keeps the direction: reading back the magnitude and the
   * direction gives the tick value clamped to [-255, 255].
   */
  lemma SaturationRoundTrip(ticks: int)
    ensures Signed(Magnitude(ticks), Direction(ticks)) == Clamp(ticks, -MaxMagnitude, MaxMagnitude)
    ensures -MaxMagnitude <= ticks <= MaxMagnitude ==> Signed(Magnitude(ticks), Direction(ticks)) == ticks
  {
  }

  /**
   * A small reverse speed that truncates to zero ticks is sent as a zero
   * magnitude with the forward flag.
   */
  lemma SmallReverseSentForward(w: real, pi: real)
    requires pi > 0.0
    requires -1.0 < ToTicks(w, pi) < 0.0
    ensures w < 0.0
    ensures Trunc(ToTicks(w, pi)) == 0
    ensures Magnitude(Trunc(ToTicks(w, pi))) == 0 && Direction(Trunc(ToTicks(w, pi))) == ForwardFlag
  {
  }

  /**
   * Each wheel of the sent frame is within one tick of the exact target:
   * an unsaturated wheel is read back with an error below one tick.
   */
  lemma CommandQuantization(t: Twist, g: Geometry, pi: real)
    requires g.Valid() && pi > 0.0
    ensures var w := Inverse(t, g);
      var out := EncodeCommand(t, g, pi);
      var exactL := ToTicks(w.left, pi);
      var exactR := ToTicks(w.right, pi);
      (Abs(CommandTicks(t, g, pi).0) <= MaxMagnitude ==>
        -1.0 < Signed(out[2], out[3]) as real - exactL < 1.0) &&
      (Abs(CommandTicks(t, g, pi).1) <= MaxMagnitude ==>
        -1.0 < Signed(out[4], out[5]) as real - exactR < 1.0)
  {
  }

  /** With no command ever received (a zero twist) the frame is [255, 254, 0, 1, 0, 1]. */
  lemma ZeroCommandFrame(g: Geometry, pi: real)
    requires g.Valid() && pi > 0.0
    ensures EncodeCommand(Twist(0.0, 0.0), g, pi) == [255, 254, 0, 1, 0, 1]
  {
  }
}

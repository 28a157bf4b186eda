/**
 * Dead reckoning: the measured twist of a frame, the first-order Euler
 * step that integrates it into the pose, and the static covariance that
 * accompanies every odometry report.  Cosine and sine are passed in as
 * functions; only the example FiveMetresStraight assumes anything about
 * them: that cos 0 = 1 and sin 0 = 0.
 */
module Odometry {
  import opened Bytes
  import opened Kinematics
  import Telemetry

  /** Planar pose: position in metres, heading in radians. */
  datatype Pose = Pose(x: real, y: real, yaw: real)

  /** Position of the two non-zero entries of the 6x6 covariance matrix. */
  const CovarianceSize: nat := 36
  const LinearXEntry: nat := 0
  const YawRateEntry: nat := 35

  /** The twist measured from an eight-byte frame: decode, then forward kinematics. */
  function MeasuredTwist(frame: seq<Byte>, g: Geometry, pi: real): (t: Twist)
    requires |frame| == 8 && g.Valid()
    ensures Inverse(t, g) == Telemetry.DecodeWheels(frame, pi)
  {
    InverseForward(Telemetry.DecodeWheels(frame, pi), g);
    Forward(Telemetry.DecodeWheels(frame, pi), g)
  }

  /** A frame whose two wheel fields are equal yields no rotation. */
  lemma EqualWheelFieldsNoYaw(frame: seq<Byte>, g: Geometry, pi: real)
    requires |frame| == 8 && g.Valid()
    requires frame[2] == frame[4] && frame[3] == frame[5]
    ensures MeasuredTwist(frame, g, pi).vyaw == 0.0
  {
  }

  /** A frame whose two wheel fields read 500 yields a standing robot. */
  lemma StandstillFrame(frame: seq<Byte>, g: Geometry, pi: real)
    requires |frame| == 8 && g.Valid() && pi > 0.0
    requires Telemetry.U16BE(frame[2], frame[3]) == 500 && Telemetry.U16BE(frame[4], frame[5]) == 500
    ensures MeasuredTwist(frame, g, pi) == Twist(0.0, 0.0)
  {
  }

  /**
   * One Euler step of the unicycle model over `dt` seconds.  The heading
   * advances linearly; with no forward speed the position stays put.
   */
  function EulerStep(p: Pose, t: Twist, dt: real, cos: real -> real, sin: real -> real): (q: Pose)
    ensures q.yaw - p.yaw == t.vyaw * dt
    ensures t.vx == 0.0 ==> q.x == p.x && q.y == p.y
    ensures dt == 0.0 ==> q == p
  {
    Pose(p.x + t.vx * cos(p.yaw) * dt,
         p.y + t.vx * sin(p.yaw) * dt,
         p.yaw + t.vyaw * dt)
  }

  /** `n` consecutive ticks of the same twist and the same period. */
  function EulerTicks(p: Pose, t: Twist, dt: real, n: nat, cos: real -> real, sin: real -> real): Pose
  {
    if n == 0 then p else EulerStep(EulerTicks(p, t, dt, n - 1, cos, sin), t, dt, cos, sin)
  }

  /** After `n` ticks the heading has advanced by n * Vyaw * dt. */
  lemma {:induction false} YawAfterTicks(p: Pose, t: Twist, dt: real, n: nat, cos: real -> real, sin: real -> real)
    ensures EulerTicks(p, t, dt, n, cos, sin).yaw == p.yaw + n as real * t.vyaw * dt
  {
    if n > 0 {
      YawAfterTicks(p, t, dt, n - 1, cos, sin);
      assert (n - 1) as real * t.vyaw * dt + t.vyaw * dt == n as real * t.vyaw * dt;
    }
  }

  /** Adding the same step once more to `m` steps gives `m + 1` steps. */
  lemma AccumulateStep(start: real, step: real, m: nat)
    ensures start + m as real * step + step == start + (m + 1) as real * step
  {
  }

  /**
   * With no rotation the heading stays fixed and the robot moves along a
   * straight line: n ticks move it n times one tick's displacement along
   * the initial heading.
   */
  lemma {:induction false} StraightLine(p: Pose, t: Twist, dt: real, n: nat, cos: real -> real, sin: real -> real)
    requires t.vyaw == 0.0
    ensures EulerTicks(p, t, dt, n, cos, sin) ==
      Pose(p.x + n as real * (t.vx * cos(p.yaw) * dt), p.y + n as real * (t.vx * sin(p.yaw) * dt), p.yaw)
  {
    if n > 0 {
      StraightLine(p, t, dt, n - 1, cos, sin);
      AccumulateStep(p.x, t.vx * cos(p.yaw) * dt, n - 1);
      AccumulateStep(p.y, t.vx * sin(p.yaw) * dt, n - 1);
    }
  }

  /** With no forward speed, any number of ticks leaves the position where it was. */
  lemma {:induction false} TurnInPlace(p: Pose, t: Twist, dt: real, n: nat, cos: real -> real, sin: real -> real)
    requires t.vx == 0.0
    ensures EulerTicks(p, t, dt, n, cos, sin).x == p.x
    ensures EulerTicks(p, t, dt, n, cos, sin).y == p.y
  {
    if n > 0 {
      TurnInPlace(p, t, dt, n - 1, cos, sin);
    }
  }

  /**
   * From the origin, five one-second ticks at 1 m/s with no rotation end at
   * (5, 0, 0), given only that cos 0 = 1 and sin 0 = 0.
   */
  lemma FiveMetresStraight(cos: real -> real, sin: real -> real)
    requires cos(0.0) == 1.0 && sin(0.0) == 0.0
    ensures EulerTicks(Pose(0.0, 0.0, 0.0), Twist(1.0, 0.0), 1.0, 5, cos, sin) == Pose(5.0, 0.0, 0.0)
  {
    StraightLine(Pose(0.0, 0.0, 0.0), Twist(1.0, 0.0), 1.0, 5, cos, sin);
  }

  /**
   * From the origin, two one-second ticks turning at a quarter turn per
   * second end at half a turn, position unchanged.
   */
  lemma HalfTurnInPlace(quarterTurn: real, cos: real -> real, sin: real -> real)
    ensures EulerTicks(Pose(0.0, 0.0, 0.0), Twist(0.0, quarterTurn), 1.0, 2, cos, sin) ==
      Pose(0.0, 0.0, 2.0 * quarterTurn)
  {
    var p := Pose(0.0, 0.0, 0.0);
    var t := Twist(0.0, quarterTurn);
    YawAfterTicks(p, t, 1.0, 2, cos, sin);
    TurnInPlace(p, t, 1.0, 2, cos, sin);
  }

  /**
   * The covariance reported with the twist and the pose: 36 entries, all
   * zero except entry 0 (forward speed) and entry 35 (yaw rate).
   */
  method Covariance(vxCov: real, vyawCov: real) returns (cov: seq<real>)
    ensures |cov| == CovarianceSize
    ensures cov[LinearXEntry] == vxCov && cov[YawRateEntry] == vyawCov
    ensures forall i :: LinearXEntry < i < YawRateEntry ==> cov[i] == 0.0
  {
    var a := new real[CovarianceSize];
    for i := 0 to CovarianceSize
      invariant forall j :: 0 <= j < i ==> a[j] == 0.0
    {
      a[i] := 0.0;
    }
    a[LinearXEntry] := vxCov;
    a[YawRateEntry] := vyawCov;
    cov := a[..];
  }
}

/**
 * The node itself: the fields it shares between the reading loop and its
 * three timers, and one method per activity.  The serial input is the
 * sequence of bytes the port delivers, the output frame is returned as a
 * value, and clock readings, pi, cosine and sine are parameters.
 */
module BaseControlNode {
  import opened Bytes
  import opened Kinematics
  import FrameSync
  import Telemetry
  import CommandEncoding
  import Odometry

  /** One odometry report: time stamp, pose, measured twist and their covariances. */
  datatype OdometryMsg = OdometryMsg(stamp: real, pose: Odometry.Pose, twist: Twist,
                                     twistCov: seq<real>, poseCov: seq<real>)

  class BaseControl {
    const geom: Geometry
    const vxCov: real
    const vyawCov: real

    /** Latest frame latched by the reading loop; None before the first one. */
    var data: Option<seq<Byte>>
    /** Number of bytes of the serial stream consumed so far. */
    var consumed: nat

    /** Latest commanded twist. */
    var transX: real
    var rotatZ: real
    /** Magnitudes last sent for each wheel. */
    var wlSend: int
    var wrSend: int

    var currentTime: real
    var previousTime: real
    var poseX: real
    var poseY: real
    var poseYaw: real

    function Pose(): Odometry.Pose
      reads this
    {
      Odometry.Pose(poseX, poseY, poseYaw)
    }

    /** The latest frame is present and eight bytes long, so it can be decoded. */
    predicate HasFrame()
      reads this
    {
      data.Some? && |data.value| == 8
    }

    /** The twist measured from the latest frame. */
    function MeasuredTwist(pi: real): Twist
      reads this
      requires HasFrame() && geom.Valid()
    {
      Odometry.MeasuredTwist(data.value, geom, pi)
    }

    /** Initial state: no command, pose at the origin, both clocks at the start time. */
    constructor (g: Geometry, vxCovariance: real, vyawCovariance: real, startTime: real)
      requires g.Valid()
      ensures geom == g && vxCov == vxCovariance && vyawCov == vyawCovariance
      ensures data == None && consumed == 0
      ensures transX == 0.0 && rotatZ == 0.0 && wlSend == 0 && wrSend == 0
      ensures currentTime == startTime && previousTime == startTime
      ensures Pose() == Odometry.Pose(0.0, 0.0, 0.0)
    {
      geom, vxCov, vyawCov := g, vxCovariance, vyawCovariance;
      data, consumed := None, 0;
      transX, rotatZ := 0.0, 0.0;
      wlSend, wrSend := 0, 0;
      currentTime, previousTime := startTime, startTime;
      poseX, poseY, poseYaw := 0.0, 0.0, 0.0;
    }

    /**
     * The reading loop over the bytes the port delivers, run until the next
     * read would raise at the header test: it ends where the synchroniser's
     * run ends, with the frame that run latched.
     */
    method ReadingLoop(stream: seq<Byte>)
      requires consumed <= |stream|
      modifies this`data, this`consumed
      ensures FrameSync.SyncState(consumed, data) ==
        FrameSync.SyncRun(stream, FrameSync.SyncState(old(consumed), old(data)))
    {
      ghost var target := FrameSync.SyncRun(stream, FrameSync.SyncState(consumed, data));
      while FrameSync.CanPass(stream, consumed)
        invariant consumed <= |stream|
        invariant FrameSync.SyncRun(stream, FrameSync.SyncState(consumed, data)) == target
        decreases |stream| - consumed
      {
        ghost var before := FrameSync.SyncState(consumed, data);
        var reading := FrameSync.Read(stream, consumed, FrameSync.WindowSize);
        consumed := consumed + |reading|;
        if reading[0] == HeaderHi && reading[1] == HeaderLo {
          data := Some(reading);
        } else {
          var skipped := FrameSync.Read(stream, consumed, 1);
          consumed := consumed + |skipped|;
        }
        assert FrameSync.SyncState(consumed, data) == FrameSync.SyncStep(stream, before);
      }
    }

    /** A velocity command replaces the commanded twist. */
    method CommandReceived(linearX: real, angularZ: real)
      modifies this`transX, this`rotatZ
      ensures transX == linearX && rotatZ == angularZ
    {
      transX := linearX;
      rotatZ := angularZ;
    }

    /** Battery tick: the voltage of the latest frame, or nothing when it is missing or not eight bytes. */
    method BatteryTick() returns (voltage: Option<real>)
      ensures voltage.Some? <==> data.Some? && |data.value| == 8
      ensures voltage.Some? ==> voltage.value == Telemetry.DecodeVoltage(data.value)
      ensures voltage == Telemetry.BatteryReport(data)
    {
      var snapshot := data;
      if snapshot.Some? && |snapshot.value| == 8 {
        var raw := snapshot.value[6] as int * 256 + snapshot.value[7];
        voltage := Some(raw as real / 100.0);
      } else {
        voltage := None;
      }
    }

    /**
     * Odometry tick at clock reading `now`.  Without an eight-byte frame the
     * tick is skipped and pose and clocks stay as they were; otherwise the
     * measured twist is integrated over the time since the previous tick.
     */
    method OdometryTick(now: real, pi: real, cos: real -> real, sin: real -> real)
      returns (msg: Option<OdometryMsg>)
      requires geom.Valid()
      modifies this`currentTime, this`previousTime, this`poseX, this`poseY, this`poseYaw
      ensures !HasFrame() ==> msg == None && Pose() == old(Pose())
      ensures !HasFrame() ==> currentTime == old(currentTime) && previousTime == old(previousTime)
      ensures HasFrame() ==> currentTime == now && previousTime == now
      ensures HasFrame() ==>
        Pose() == Odometry.EulerStep(old(Pose()), MeasuredTwist(pi), now - old(previousTime), cos, sin)
      ensures HasFrame() ==> msg.Some? && msg.value.stamp == now && msg.value.pose == Pose()
      ensures HasFrame() ==> msg.Some? && msg.value.twist == MeasuredTwist(pi)
      ensures HasFrame() ==> msg.Some? && msg.value.poseCov == msg.value.twistCov
      ensures HasFrame() ==> msg.Some? && |msg.value.twistCov| == Odometry.CovarianceSize
      ensures HasFrame() ==> msg.value.twistCov[Odometry.LinearXEntry] == vxCov
      ensures HasFrame() ==> msg.value.twistCov[Odometry.YawRateEntry] == vyawCov
      ensures HasFrame() ==>
        forall i :: Odometry.LinearXEntry < i < Odometry.YawRateEntry ==> msg.value.twistCov[i] == 0.0
    {
      var snapshot := data;
      if !(snapshot.Some? && |snapshot.value| == 8) {
        return None;
      }
      var frame := snapshot.value;
      // decoding and forward kinematics are the pure parts
      var twist := Odometry.MeasuredTwist(frame, geom, pi);
      var vx, vyaw := twist.vx, twist.vyaw;
      ghost var before := Pose();

      currentTime := now;
      var dt := currentTime - previousTime;
      previousTime := currentTime;
      poseX := poseX + vx * cos(poseYaw) * dt;
      poseY := poseY + vx * sin(poseYaw) * dt;
      poseYaw := poseYaw + vyaw * dt;
      assert Pose() == Odometry.EulerStep(before, twist, dt, cos, sin);

      var cov := Odometry.Covariance(vxCov, vyawCov);
      msg := Some(OdometryMsg(currentTime, Pose(), Twist(vx, vyaw), cov, cov));
    }

    /**
     * Command tick: the commanded twist through inverse kinematics into
     * ticks, split into magnitude and direction and saturated at 255, sent
     * as [255, 254, Lmag, Ldir, Rmag, Rdir].
     */
    method CommandTick(pi: real) returns (output: seq<Byte>)
      requires geom.Valid() && pi > 0.0
      modifies this`wlSend, this`wrSend
      ensures output == CommandEncoding.EncodeCommand(Twist(transX, rotatZ), geom, pi)
      ensures var ticks := CommandEncoding.CommandTicks(Twist(transX, rotatZ), geom, pi);
        wlSend == CommandEncoding.Magnitude(ticks.0) && wrSend == CommandEncoding.Magnitude(ticks.1)
    {
      var wr := (transX + geom.wheelSep / 2.0 * rotatZ) / geom.wheelRad;
      var wl := (transX - geom.wheelSep / 2.0 * rotatZ) / geom.wheelRad;
      assert Inverse(Twist(transX, rotatZ), geom) == Wheels(wl, wr);
      ghost var ticks := CommandEncoding.CommandTicks(Twist(transX, rotatZ), geom, pi);
      assert ticks == (CommandEncoding.Trunc(CommandEncoding.ToTicks(wl, pi)),
                       CommandEncoding.Trunc(CommandEncoding.ToTicks(wr, pi)));
      wrSend := CommandEncoding.Trunc(CommandEncoding.ToTicks(wr, pi));
      wlSend := CommandEncoding.Trunc(CommandEncoding.ToTicks(wl, pi));
      var rForward: Byte := CommandEncoding.ForwardFlag;
      var lForward: Byte := CommandEncoding.ForwardFlag;
      if wrSend < 0 {
        rForward := CommandEncoding.ReverseFlag;
        wrSend := -wrSend;
      }
      if wlSend < 0 {
        lForward := CommandEncoding.ReverseFlag;
        wlSend := -wlSend;
      }
      if wrSend > CommandEncoding.MaxMagnitude {
        wrSend := CommandEncoding.MaxMagnitude;
      }
      if wlSend > CommandEncoding.MaxMagnitude {
        wlSend := CommandEncoding.MaxMagnitude;
      }
      assert lForward == CommandEncoding.Direction(ticks.0) && wlSend == CommandEncoding.Magnitude(ticks.0);
      assert rForward == CommandEncoding.Direction(ticks.1) && wrSend == CommandEncoding.Magnitude(ticks.1);
      output := [HeaderHi, HeaderLo, wlSend, lForward, wrSend, rForward];
    }
  }
}

# Differential-drive base bridge, modelled in Dafny

This project models the `BaseControl` node of `scripts/base_control.py`. The node bridges a serial motor board and a ROS navigation stack for a two-wheeled differential-drive robot. It does five things:

- **Frame synchroniser** (`FrameSync`, `BaseControl.ReadingLoop`). This is the reading loop. It cuts the serial byte stream into 8-byte windows and latches a window as the latest frame when it starts with the header pair 255, 254.
- **Telemetry decoding** (`Telemetry`). Three big-endian 16-bit fields are read from a frame: the left wheel, the right wheel and the battery. They are turned into wheel speeds in rad/s and a voltage.
- **Differential-drive kinematics** (`Kinematics`). Forward kinematics turns wheel speeds into a twist (forward speed, yaw rate). Inverse kinematics turns a twist into wheel speeds. Both use the same wheel separation and wheel radius.
- **Odometry** (`Odometry`, `BaseControl.OdometryTick`). A first-order Euler step integrates the measured twist into the pose. Each report carries a fixed 36-entry covariance.
- **Command encoder** (`CommandEncoding`, `BaseControl.CommandTick`). A commanded twist becomes wheel ticks, truncated toward zero. Each wheel is split into a magnitude and a direction byte, the magnitude is saturated at 255, and the frame `[255, 254, Lmag, Ldir, Rmag, Rdir]` is sent.

The fields the node shares between its reading loop and its timers are held by the class `BaseControlNode.BaseControl`:

- the latest frame;
- the commanded twist;
- the last sent magnitudes;
- the pose;
- the clocks.

Each activity is one method of that class. The decoding, the kinematics and the Euler step are pure functions with lemmas about them.

Parameters stand in for what the model cannot compute:

- The serial input is the sequence of bytes the port delivers.
- The output frame is returned as a value.
- The clock reading `now` is a parameter.
- The circle constant `pi` is a positive real parameter.
- Cosine and sine are function parameters (`real -> real`). Only the example `Odometry.FiveMetresStraight` assumes anything about them: that cos 0 = 1 and sin 0 = 0.

The first odometry tick measures `dt` from construction time, as the code does, not from the first received frame.

All arithmetic is over exact `real`. Conversion to an integer truncates toward zero, as a float-to-int conversion does.

## Model

| member | source | states |
|---|---|---|
| FrameSync.Read | scripts/base_control.py:81 | a read returns min(8, bytes left) bytes, each equal to the stream byte at the current position plus its index |
| FrameSync.CanPass | scripts/base_control.py:81-82 | a pass can run exactly when the window it reads is testable: at least two bytes, or one byte other than 255, since the header test stops at a first byte that is not 255 |
| FrameSync.SyncStep | scripts/base_control.py:80-85 | a pass that the header test can inspect consumes at least one byte and never runs past the end of the stream |
| FrameSync.SyncRun | scripts/base_control.py:80-85 | the loop runs until the next read would raise at the header test (an empty read, or one byte of 255), and only moves forward |
| FrameSync.SyncAcceptance | scripts/base_control.py:82-85 | a window becomes the latest frame iff its first two bytes are 255 and 254; a rejected window leaves the latest frame unchanged |
| FrameSync.SyncPosition | scripts/base_control.py:81-85 | with a full window and a spare byte, an accepted window advances the position by exactly 8 and a rejected one by exactly 9; each rejection shifts the window start by one byte modulo 8 |
| FrameSync.SyncAlignedFrames | scripts/base_control.py:80-85 | on aligned back-to-back valid frames every window is accepted; the loop ends after the last frame, with the last frame latched |
| FrameSync.TrailingByteConsumed | scripts/base_control.py:82-85 | a single byte other than 255 after a valid frame is read, rejected without looking at a second byte, and dropped: the loop ends after nine bytes with the frame latched |
| FrameSync.OneStrayByteLosesFrame | scripts/base_control.py:85 | one stray byte before a valid frame makes the loop skip that frame entirely: the latest frame is unchanged after 9 bytes |
| FrameSync.ResyncStep | scripts/base_control.py:80-85 | corrected pass: a rejected window drops exactly one byte and keeps the latest frame |
| FrameSync.ResyncRun | scripts/base_control.py:80-85 | the corrected loop only moves forward and stays within the stream |
| FrameSync.ResyncRecovers | scripts/base_control.py:80-85 | with one-byte resynchronisation, a valid frame preceded by any bytes that contain no header pair becomes the latest frame |
| Telemetry.U16BE | scripts/base_control.py:95-96 | a big-endian 16-bit field read as hi*256+lo lies in [0, 65535]; U16RoundTrip and SplitRoundTrip show it determines both bytes |
| Telemetry.WheelSpeed | scripts/base_control.py:113-114 | a raw wheel field of 500 decodes to 0 rad/s; WheelSpeedSign gives the sign in both directions and TickFactorsReciprocal the scale |
| Telemetry.DecodeWheels | scripts/base_control.py:113-114 | equal wheel fields give equal speeds; TelemetryFrameRoundTrip states that the left speed comes from bytes 2-3 and the right from bytes 4-5 |
| Telemetry.TelemetryFrame | scripts/base_control.py:82-96 | the frame for raw left, right and battery values has 8 bytes, opening with the header pair 255, 254 |
| Telemetry.TelemetryFrameRoundTrip | scripts/base_control.py:95-114 | decoding the frame built from raw values gives back those values: left wheel from the first field, right wheel from the second, voltage times 100 from the third |
| Telemetry.U16RoundTrip | scripts/base_control.py:95-96 | a field read as hi*256+lo lies in [0, 65535], and splitting it into high and low byte gives back its two bytes |
| Telemetry.SplitRoundTrip | scripts/base_control.py:95-96 | joining the high and low byte of any 16-bit value gives back the value |
| Telemetry.WheelSpeedSign | scripts/base_control.py:113-114 | a raw wheel field of 500 decodes to 0 rad/s, and the decoded speed has the sign of raw - 500 |
| Telemetry.DecodeVoltage | scripts/base_control.py:95-96 | the voltage times 100 is the raw battery field, so it lies in [0, 655.35] |
| Telemetry.VoltageExample | scripts/base_control.py:95-96 | battery bytes (0x01, 0x90) are the value 400 and decode to 4.00 V |
| Telemetry.BatteryReport | scripts/base_control.py:91-104 | a voltage is reported iff the latest frame is present and exactly 8 bytes long; the reported voltage times 100 is bytes 6-7 read big-endian |
| Kinematics.Forward | scripts/base_control.py:119-122 | equal wheel speeds give zero yaw rate and opposite ones zero forward speed; ForwardShape states both as iff, and ForwardInverse and InverseForward state that it inverts Inverse |
| Kinematics.Inverse | scripts/base_control.py:175-176 | a command without rotation drives both wheels equally, one without forward speed drives them oppositely; ForwardInverse and InverseForward state that it inverts Forward |
| Kinematics.ForwardShape | scripts/base_control.py:119-122 | the yaw rate is zero iff both wheels turn at the same speed; the forward speed is zero iff they turn at opposite speeds |
| Kinematics.ForwardInverse | scripts/base_control.py:175-176 | with positive separation and radius, the inverse kinematics here followed by the forward kinematics of lines 119-122 gives back the commanded twist exactly |
| Kinematics.InverseForward | scripts/base_control.py:119-122 | the forward kinematics here followed by the inverse kinematics of lines 175-176 gives back the wheel speeds exactly |
| CommandEncoding.Trunc | scripts/base_control.py:177-178 | the conversion to an integer truncates toward zero: the result is within one of x, never farther from zero, and has the sign of x or is 0 |
| CommandEncoding.ToTicks | scripts/base_control.py:177-178 | the tick value is zero iff the wheel speed is zero and positive iff the speed is positive; TickFactorsReciprocal states its scale against the decoder's |
| CommandEncoding.CommandTicks | scripts/base_control.py:175-178 | a command without rotation gives equal tick values for both wheels, one without forward speed gives opposite tick values; CommandQuantization bounds each against its exact target |
| CommandEncoding.EncodeCommand | scripts/base_control.py:175-192 | the frame sent for a twist has 6 bytes opening with 255, 254, and a command without rotation sends the same magnitude and direction for both wheels; ZeroCommandFrame gives the initial frame |
| CommandEncoding.TickFactorsReciprocal | scripts/base_control.py:177-178 | the encoder's tick-per-rad/s factor here and the decoder's rad/s-per-tick factor of lines 113-114 are reciprocal: a decoded speed converts back to raw - 500 ticks |
| CommandEncoding.Magnitude | scripts/base_control.py:181-190 | the magnitude byte is the absolute tick value when that is at most 255, and 255 otherwise |
| CommandEncoding.Direction | scripts/base_control.py:179-186 | the direction byte is 1 (forward) iff the truncated tick value is >= 0, and 0 (reverse) iff it is negative |
| CommandEncoding.CommandFrame | scripts/base_control.py:192 | the output frame has exactly 6 bytes: 255, 254, left magnitude, left direction, right magnitude, right direction |
| CommandEncoding.SaturationRoundTrip | scripts/base_control.py:181-190 | reading back magnitude and direction gives the tick value clamped to [-255, 255], so saturation keeps the direction |
| CommandEncoding.SmallReverseSentForward | scripts/base_control.py:177-186 | a reverse speed of less than one tick truncates to 0 and is sent as magnitude 0 with the forward flag |
| CommandEncoding.CommandQuantization | scripts/base_control.py:175-192 | each unsaturated wheel in the sent frame is read back within one tick of the exact inverse-kinematics target |
| CommandEncoding.ZeroCommandFrame | scripts/base_control.py:69-70 | with the initial zero command, the frame sent is [255, 254, 0, 1, 0, 1] |
| Odometry.MeasuredTwist | scripts/base_control.py:113-122 | the twist measured from a frame converts back, by inverse kinematics, to exactly the wheel speeds decoded from it |
| Odometry.EqualWheelFieldsNoYaw | scripts/base_control.py:113-122 | a frame whose two wheel fields are equal gives a zero yaw rate |
| Odometry.StandstillFrame | scripts/base_control.py:113-122 | a frame whose two wheel fields are both 500 gives a zero twist |
| Odometry.EulerStep | scripts/base_control.py:128-130 | an Euler step advances yaw by Vyaw*dt, leaves x and y in place when Vx = 0, and leaves the pose unchanged when dt = 0 |
| Odometry.YawAfterTicks | scripts/base_control.py:130 | after n ticks of the same twist and period the yaw has advanced by n*Vyaw*dt |
| Odometry.StraightLine | scripts/base_control.py:128-130 | with Vyaw = 0, n ticks keep the heading and move the robot n times one tick's displacement along it |
| Odometry.TurnInPlace | scripts/base_control.py:128-129 | with Vx = 0, any number of ticks leaves x and y unchanged |
| Odometry.FiveMetresStraight | scripts/base_control.py:128-130 | from the origin, five 1-second ticks at 1 m/s with no rotation end at (5, 0, 0), using only cos 0 = 1 and sin 0 = 0 |
| Odometry.HalfTurnInPlace | scripts/base_control.py:128-130 | from the origin, two 1-second ticks at a yaw rate q with no forward speed end at yaw 2q, with the position unchanged |
| Odometry.Covariance | scripts/base_control.py:147-151 | the covariance has 36 entries: entry 0 is the Vx variance, entry 35 the yaw-rate variance, every other entry is 0 |
| BaseControlNode.BaseControl.constructor | scripts/base_control.py:69-77 | the node starts with a zero command, zero sent magnitudes, the pose at the origin, both clocks at the start time, and no frame |
| BaseControlNode.BaseControl.ReadingLoop | scripts/base_control.py:80-85 | the reading loop leaves the stream position and the latest frame exactly where the synchroniser's run ends |
| BaseControlNode.BaseControl.CommandReceived | scripts/base_control.py:87-89 | a velocity command replaces the commanded forward speed and yaw rate |
| BaseControlNode.BaseControl.BatteryTick | scripts/base_control.py:91-104 | a voltage is reported iff the latest frame is present and 8 bytes long; it is that frame's decoded voltage, the same report as `Telemetry.BatteryReport` |
| BaseControlNode.BaseControl.OdometryTick | scripts/base_control.py:107-171 | with no 8-byte frame, the tick is skipped: pose and clocks are unchanged and nothing is reported. Otherwise both clocks become `now`, the pose takes one Euler step with the measured twist over the time since the previous tick, and the report carries the new pose, the twist and the fixed covariance for both pose and twist |
| BaseControlNode.BaseControl.CommandTick | scripts/base_control.py:173-192 | the frame sent is the encoding of the commanded twist; the stored sent magnitudes are the saturated absolute tick values of the two wheels |

## Left out

- Parameter reading, subscribers, publishers, timers and `rospy.spin` (scripts/base_control.py:31-42, 60-66, 196-206). These are framework wiring. Each timer callback is one method, and the interleaving of the reading loop with the three timers is not modelled.
- Opening the serial port, the 50-byte flush at start-up, writing the command frame, and closing the port (scripts/base_control.py:45-57, 194, 205). These are I/O. The input is a byte sequence and the output frame a returned value.
- Timeouts in the middle of the stream. A short read happens only when the stream has no more bytes.
- The `IndexError` that ends the loop. An empty read, or a one-byte read of 255, raises at the header test (scripts/base_control.py:82). `ReadingLoop` stops right before such a read instead of modelling the crash. A one-byte read of any other value is modelled: it is rejected without reading a second byte, and `read(1)` follows.
- The orientation quaternion, the TF broadcast and the message header frame names (scripts/base_control.py:131-156). These are foreign calls and publishing only.
- The debug branch (scripts/base_control.py:159-167). It tests for a 6-byte frame, which cannot occur at that point (the tick has already required 8 bytes), and it only logs.
- IEEE floating-point rounding. All arithmetic is over exact reals.
- Trigonometry. Cosine and sine are uninterpreted function parameters.
- A zero wheel radius. The command tick divides by it (scripts/base_control.py:175-176) and raises `ZeroDivisionError`, which nothing catches. The odometry tick only multiplies by it (scripts/base_control.py:119-120), so it reports a zero twist and still updates the clocks.
- A zero wheel separation. The odometry tick divides by it (scripts/base_control.py:121) and raises `ZeroDivisionError`, which the catch-all at scripts/base_control.py:169-171 turns into a skipped tick. The command tick only multiplies by it, so both wheels get `trans_x / wheelRad`.
- Negative wheel separation or radius. The code accepts them, but the model excludes them as physically meaningless: `Geometry.Valid` requires both to be positive.
- BaseControlNode.BaseControl.ReadingLoop: runs over a finite stream, not forever.
- BaseControlNode.BaseControl.OdometryTick: calls the pure `Odometry.MeasuredTwist` for the decode and forward-kinematics expressions (scripts/base_control.py:113-122) instead of repeating them inline.

## Findings

| source | as written | input that shows it | evidently intended | confidence | as-written member | corrected member |
|---|---|---|---|---|---|---|
| scripts/base_control.py:81-85 | a rejected 8-byte window is dropped together with one more byte, so the stream advances by 9 bytes | one stray byte followed by a valid frame, e.g. [0, 255, 254, 1, 244, 1, 244, 1, 144]: the window at offset 0 is rejected, the skip consumes the frame's last byte, and the frame is never latched | drop one byte per rejected window, re-aligning one position at a time | medium, not executed | FrameSync.OneStrayByteLosesFrame | FrameSync.ResyncRecovers |

`BaseControl.ReadingLoop` keeps the nine-byte skip because it models the program as deployed. `FrameSync.ResyncStep` and `FrameSync.ResyncRun` give the one-byte resynchronisation, and `FrameSync.ResyncRecovers` proves the recovery property for it.

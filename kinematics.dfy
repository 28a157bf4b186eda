/**
 * Differential-drive kinematics over exact reals.  Both directions use the
 * same wheel separation and wheel radius.
 */
module Kinematics {

  /** Wheel separation and wheel radius, in metres. */
  datatype Geometry = Geometry(wheelSep: real, wheelRad: real)
  {
    predicate Valid() { wheelSep > 0.0 && wheelRad > 0.0 }
  }

  /** A planar velocity: forward speed (m/s) and yaw rate (rad/s). */
  datatype Twist = Twist(vx: real, vyaw: real)

  /** Wheel angular speeds (rad/s), left and right. */
  datatype Wheels = Wheels(left: real, right: real)

  /** Forward kinematics: wheel speeds to the body's twist. */
  function Forward(w: Wheels, g: Geometry): (t: Twist)
    requires g.Valid()
    ensures w.left == w.right ==> t.vyaw == 0.0
    ensures w.left == -w.right ==> t.vx == 0.0
  {
    var vl := w.left * g.wheelRad;
    var vr := w.right * g.wheelRad;
    Twist((vr + vl) / 2.0, (vr - vl) / g.wheelSep)
  }

  /** Inverse kinematics: a commanded twist to target wheel speeds. */
  function Inverse(t: Twist, g: Geometry): (w: Wheels)
    requires g.Valid()
    ensures t.vyaw == 0.0 ==> w.left == w.right
    ensures t.vx == 0.0 ==> w.left == -w.right
  {
    Wheels((t.vx - g.wheelSep / 2.0 * t.vyaw) / g.wheelRad,
           (t.vx + g.wheelSep / 2.0 * t.vyaw) / g.wheelRad)
  }

  /** Equal wheel speeds drive straight; opposite ones turn on the spot. */
  lemma ForwardShape(w: Wheels, g: Geometry)
    requires g.Valid()
    ensures Forward(w, g).vyaw == 0.0 <==> w.left == w.right
    ensures Forward(w, g).vx == 0.0 <==> w.left == -w.right
  {
  }

  /** Inverse then forward kinematics gives back the commanded twist exactly. */
  lemma ForwardInverse(t: Twist, g: Geometry)
    requires g.Valid()
    ensures Forward(Inverse(t, g), g) == t
  {
  }

  /** Forward then inverse kinematics gives back the wheel speeds exactly. */
  lemma InverseForward(w: Wheels, g: Geometry)
    requires g.Valid()
    ensures Inverse(Forward(w, g), g) == w
  {
  }
}

/** Poses in the simulator's world frame, the world-to-vehicle transform and
    the linear pose interpolation used between trajectory samples
    (scripts/ff/collect_pm.py, world3DToVehicle3D and getLinearPose). */
module Pose {

  /** A position in the world frame. */
  datatype Location = Location(x: real, y: real, z: real)

  /** An orientation, in degrees as the simulator reports it. */
  datatype Rotation = Rotation(roll: real, pitch: real, yaw: real)

  /** A pose: position and orientation. */
  datatype Transform = Transform(location: Location, rotation: Rotation)

  /** A column vector of three coordinates. */
  datatype Vec3 = Vec3(x: real, y: real, z: real)

  /** A 3x3 matrix, by rows. */
  datatype Mat3 = Mat3(r0: Vec3, r1: Vec3, r2: Vec3)

  function Dot(a: Vec3, b: Vec3): real
  {
    a.x * b.x + a.y * b.y + a.z * b.z
  }

  function Add(a: Vec3, b: Vec3): Vec3
  {
    Vec3(a.x + b.x, a.y + b.y, a.z + b.z)
  }

  function Sub(a: Vec3, b: Vec3): Vec3
  {
    Vec3(a.x - b.x, a.y - b.y, a.z - b.z)
  }

  /** m * v */
  function Apply(m: Mat3, v: Vec3): Vec3
  {
    Vec3(Dot(m.r0, v), Dot(m.r1, v), Dot(m.r2, v))
  }

  /** m.T * v */
  function ApplyTransposed(m: Mat3, v: Vec3): Vec3
  {
    Vec3(m.r0.x * v.x + m.r1.x * v.y + m.r2.x * v.z,
         m.r0.y * v.x + m.r1.y * v.y + m.r2.y * v.z,
         m.r0.z * v.x + m.r1.z * v.y + m.r2.z * v.z)
  }

  /** m * m.T is the identity: the rows are orthonormal, as for a rotation. */
  predicate Orthonormal(m: Mat3)
  {
    Dot(m.r0, m.r0) == 1.0 && Dot(m.r1, m.r1) == 1.0 && Dot(m.r2, m.r2) == 1.0 &&
    Dot(m.r0, m.r1) == 0.0 && Dot(m.r0, m.r2) == 0.0 && Dot(m.r1, m.r2) == 0.0
  }

  function LocationVec(l: Location): Vec3
  {
    Vec3(l.x, l.y, l.z)
  }

  /** world3DToVehicle3D: a world point expressed in the frame of the vehicle
      pose, R.T * (point - t), where R is the rotation matrix of the pose's
      roll, pitch and yaw (computed outside this model) and t its location.
      The vehicle's own location is the origin of its frame. */
  function WorldToVehicle(point: Vec3, pose: Transform, r: Mat3): (v: Vec3)
    ensures point == LocationVec(pose.location) ==> v == Vec3(0.0, 0.0, 0.0)
  {
    ApplyTransposed(r, Sub(point, LocationVec(pose.location)))
  }

  /** For a rotation matrix, rotating the vehicle-frame point back by R and
      translating by t recovers the world point: the transform is invertible. */
  lemma {:induction false} VehicleToWorld(point: Vec3, pose: Transform, r: Mat3)
    requires Orthonormal(r)
    ensures Add(Apply(r, WorldToVehicle(point, pose, r)), LocationVec(pose.location)) == point
  {
    var d := Sub(point, LocationVec(pose.location));
    var w := ApplyTransposed(r, d);
    RowTimesTransposed(r.r0, r, d, 1.0, 0.0, 0.0);
    RowTimesTransposed(r.r1, r, d, 0.0, 1.0, 0.0);
    RowTimesTransposed(r.r2, r, d, 0.0, 0.0, 1.0);
    assert Apply(r, w) == Vec3(d.x, d.y, d.z);
  }

  /** row . (R.T * d), given the dot products ka, kb, kc of row with the rows
      of R, is ka * d.x + kb * d.y + kc * d.z. */
  lemma RowTimesTransposed(row: Vec3, r: Mat3, d: Vec3, ka: real, kb: real, kc: real)
    requires Dot(row, r.r0) == ka && Dot(row, r.r1) == kb && Dot(row, r.r2) == kc
    ensures Dot(row, ApplyTransposed(r, d)) == ka * d.x + kb * d.y + kc * d.z
  {
  }

  /** tt * b + (1 - tt) * a, the interpolation getLinearPose applies to each
      coordinate. */
  function Lerp(tt: real, a: real, b: real): real
  {
    tt * b + (1.0 - tt) * a
  }

  /** getLinearPose(t, T, pose1, pose2): the pose a fraction tt = t / T of the
      way from pose1 to pose2. Position is interpolated linearly; each angle
      adds tt times the wrapped difference to pose1's angle. wrap is
      basic_tools.pi2pi, here on angles in degrees (the source converts to
      radians, wraps and converts back). */
  function LinearPose(t: real, T: real, pose1: Transform, pose2: Transform, wrap: real -> real): (pose: Transform)
    requires T != 0.0
    ensures t == 0.0 ==> pose == pose1
  {
    var tt := t / T;
    var l1, l2 := pose1.location, pose2.location;
    var r1, r2 := pose1.rotation, pose2.rotation;
    Transform(
      Location(Lerp(tt, l1.x, l2.x), Lerp(tt, l1.y, l2.y), Lerp(tt, l1.z, l2.z)),
      Rotation(wrap(r2.roll - r1.roll) * tt + r1.roll,
               wrap(r2.pitch - r1.pitch) * tt + r1.pitch,
               wrap(r2.yaw - r1.yaw) * tt + r1.yaw))
  }

  /** At t = 0 the interpolated pose is pose1, and at t = T it is at pose2's
      location. */
  lemma LinearPoseEndpoints(t: real, T: real, pose1: Transform, pose2: Transform, wrap: real -> real)
    requires T != 0.0
    ensures t == 0.0 ==> LinearPose(t, T, pose1, pose2, wrap) == pose1
    ensures t == T ==> LinearPose(t, T, pose1, pose2, wrap).location == pose2.location
  {
    if t == 0.0 {
      assert t / T == 0.0;
    }
    if t == T {
      assert t / T == 1.0;
    }
  }

  /** v lies between a and b, whichever order they come in. */
  predicate Between(a: real, v: real, b: real)
  {
    (a <= v <= b) || (b <= v <= a)
  }

  /** For t between 0 and T (T of either sign) the fraction t / T is in [0, 1]. */
  lemma FractionOfSpan(t: real, T: real)
    requires T != 0.0 && Between(0.0, t, T)
    ensures 0.0 <= t / T <= 1.0
  {
    var tt := t / T;
    assert tt * T == t;
    if T < 0.0 {
      assert (-t) / (-T) == tt;
    }
  }

  /** For t between 0 and T every coordinate of the interpolated position
      lies between the coordinates of the two endpoint poses. */
  lemma {:induction false} LinearPoseBetween(t: real, T: real, pose1: Transform, pose2: Transform, wrap: real -> real)
    requires T != 0.0 && Between(0.0, t, T)
    ensures var l := LinearPose(t, T, pose1, pose2, wrap).location;
      Between(pose1.location.x, l.x, pose2.location.x) &&
      Between(pose1.location.y, l.y, pose2.location.y) &&
      Between(pose1.location.z, l.z, pose2.location.z)
  {
    var tt := t / T;
    FractionOfSpan(t, T);
    LerpBetween(tt, pose1.location.x, pose2.location.x);
    LerpBetween(tt, pose1.location.y, pose2.location.y);
    LerpBetween(tt, pose1.location.z, pose2.location.z);
  }

  lemma LerpBetween(tt: real, a: real, b: real)
    requires 0.0 <= tt <= 1.0
    ensures Between(a, Lerp(tt, a, b), b)
  {
    if a <= b {
      LerpUp(tt, a, b);
    } else {
      LerpUp(1.0 - tt, b, a);
      assert Lerp(tt, a, b) == Lerp(1.0 - tt, b, a);
    }
  }

  lemma LerpUp(tt: real, a: real, b: real)
    requires 0.0 <= tt <= 1.0 && a <= b
    ensures a <= Lerp(tt, a, b) <= b
  {
    var d := b - a;
    assert Lerp(tt, a, b) == a + tt * d;
    assert 0.0 <= tt * d;
    assert tt * d <= d by {
      assert d - tt * d == (1.0 - tt) * d;
    }
  }

  /** When pi2pi keeps angle differences within half a turn, no interpolated
      angle for t between 0 and T is more than 180 degrees from pose1's angle. */
  lemma {:induction false} LinearPoseAngleStep(t: real, T: real, pose1: Transform, pose2: Transform, wrap: real -> real)
    requires T != 0.0 && Between(0.0, t, T)
    requires forall a :: -180.0 <= wrap(a) <= 180.0
    ensures var r, r1 := LinearPose(t, T, pose1, pose2, wrap).rotation, pose1.rotation;
      -180.0 <= r.roll - r1.roll <= 180.0 &&
      -180.0 <= r.pitch - r1.pitch <= 180.0 &&
      -180.0 <= r.yaw - r1.yaw <= 180.0
  {
    var tt := t / T;
    FractionOfSpan(t, T);
    var r1, r2 := pose1.rotation, pose2.rotation;
    HalfTurnScaled(wrap(r2.roll - r1.roll), tt);
    HalfTurnScaled(wrap(r2.pitch - r1.pitch), tt);
    HalfTurnScaled(wrap(r2.yaw - r1.yaw), tt);
  }

  lemma HalfTurnScaled(w: real, tt: real)
    requires -180.0 <= w <= 180.0 && 0.0 <= tt <= 1.0
    ensures -180.0 <= w * tt <= 180.0
  {
    if w >= 0.0 {
      assert w * tt <= w;
    } else {
      assert w * tt >= w;
    }
  }
}

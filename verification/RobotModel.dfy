/** The calibrated robot model: joint origins, Craig MDH rows, fixed offsets and limits. */
module RobotModel {
  import opened Geometry
  import opened Trigonometry

  const JOINT_COUNT := 6

  /** Six joint values. */
  type Joints = q: seq<real> | |q| == JOINT_COUNT witness [0.0, 0.0, 0.0, 0.0, 0.0, 0.0]

  /** One Craig MDH row: a, alpha, d and the joint's zero offset. */
  datatype Row = Row(length: real, twist: real, distance: real, offset: real)

  datatype Model = Model(baseFromMdh: Pose, mdh: seq<Row>, origins: seq<Pose>,
                         joint6FromFlange: Pose, jointMin: Joints, jointMax: Joints)

  predicate SixAxes(m: Model) {
    |m.mdh| == JOINT_COUNT && |m.origins| == JOINT_COUNT
  }

  /** Rx(alpha) Tx(a) Rz(angle) Tz(d), entry by entry. */
  function MdhTransform(t: Trig, row: Row, angle: real): Pose {
    var a, b := t.cis(row.twist), t.cis(angle);
    Pose(Mat(Vec(b.c, a.c * b.s, a.s * b.s), Vec(-b.s, a.c * b.c, a.s * b.c), Vec(0.0, -a.s, a.c)),
         Vec(row.length, -row.distance * a.s, row.distance * a.c))
  }

  /** The product of the first n calibrated joint transforms. */
  function MdhChain(t: Trig, base: Pose, mdh: seq<Row>, q: seq<real>, n: nat): Pose
    requires n <= |mdh| && n <= |q|
  {
    if n == 0 then base
    else Compose(MdhChain(t, base, mdh, q, n - 1), MdhTransform(t, mdh[n - 1], q[n - 1] + mdh[n - 1].offset))
  }

  /** The product of the first n scene joints: fixed origin, then Rz(q). */
  function SceneChain(t: Trig, origins: seq<Pose>, q: seq<real>, n: nat): Pose
    requires n <= |origins| && n <= |q|
  {
    if n == 0 then ORIGIN
    else Compose(Compose(SceneChain(t, origins, q, n - 1), origins[n - 1]), RotZPose(t.cis(q[n - 1])))
  }

  function Fk(t: Trig, m: Model, q: Joints): Pose
    requires SixAxes(m)
  {
    Compose(MdhChain(t, m.baseFromMdh, m.mdh, q, JOINT_COUNT), m.joint6FromFlange)
  }

  /** Forward kinematics: the base, six joint transforms multiplied in turn, the flange. */
  method ComputeFk(t: Trig, m: Model, q: Joints) returns (pose: Pose)
    requires SixAxes(m)
    ensures pose == Fk(t, m, q)
  {
    pose := m.baseFromMdh;
    for idx := 0 to JOINT_COUNT
      invariant pose == MdhChain(t, m.baseFromMdh, m.mdh, q, idx)
    {
      pose := Compose(pose, MdhTransform(t, m.mdh[idx], q[idx] + m.mdh[idx].offset));
    }
    pose := Compose(pose, m.joint6FromFlange);
  }

  // ----- Geometry the analytic inverse supports ----------------------------

  /** Rotations of the joint origins about y: 0, -90, 0, 0, 90 and -90 degrees. */
  function Twist(idx: nat): Unit {
    if idx == 1 || idx == 5 then Neg(QUARTER) else if idx == 4 then QUARTER else ONE
  }

  predicate HasTwist(origins: seq<Pose>, idx: nat)
    requires idx < |origins|
  {
    origins[idx].r == RotYMat(Twist(idx))
  }

  /** The planar part of a link is not zero. */
  predicate HasLength(v: Vec) {
    v.x != 0.0 || v.y != 0.0
  }

  /** The geometry check at zero tolerance: parallel-axis twists, no lateral wrist offset, real links. */
  predicate SupportedOrigins(origins: seq<Pose>) {
    && |origins| == JOINT_COUNT
    && (forall idx :: 0 <= idx < JOINT_COUNT ==> HasTwist(origins, idx))
    && origins[5].p.y == 0.0
    && HasLength(origins[2].p) && HasLength(origins[3].p)
  }

  /** The calibrated chain and the scene's own chain agree: the exact reading of the comparison made on loading. */
  ghost predicate ChainsAgree(t: Trig, m: Model)
    requires SixAxes(m)
  {
    forall q: Joints :: Fk(t, m, q) == Compose(SceneChain(t, m.origins, q, JOINT_COUNT), m.joint6FromFlange)
  }
}

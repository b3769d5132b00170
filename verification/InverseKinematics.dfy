/** compute_ik: enumerating shoulder, wrist and elbow branches, each rechecked by the forward kinematics. */
module InverseKinematics {
  import opened Geometry
  import opened Trigonometry
  import opened Options
  import opened RobotModel
  import opened ShoulderElbow
  import opened JointLifting
  import opened SolutionSet
  import opened ArmModel
  import opened ElbowSolver
  import opened SingularWrist

  const POSE_TOLERANCE := 0.0000001

  /** The rigid-pose check: orthonormal up to tolerance, determinant one up to tolerance. */
  predicate IsRigidPose(p: Pose) {
    && SquaredDistance(Product(Transpose(p.r), p.r), IDENTITY) < POSE_TOLERANCE * POSE_TOLERANCE
    && Abs(Determinant(p.r) - 1.0) < POSE_TOLERANCE
  }

  // ----- Frames seen from the shoulder -------------------------------------

  function LocalRotation(t: Trig, shoulder: real): Mat {
    Product(RotYMat(t.cis(t.pi / 2.0)), RotZMat(t.cis(-shoulder)))
  }

  function OrientationOf(t: Trig, shoulder: real, r: Mat): Mat {
    Product(LocalRotation(t, shoulder), r)
  }

  function LocalTargetOf(t: Trig, m: Model, shoulder: real, jt: Pose): Vec
    requires SixAxes(m)
  {
    FrameChange(t, shoulder, Minus(jt.p, m.origins[0].p), m.origins[1].p)
  }

  function FrameChange(t: Trig, shoulder: real, position: Vec, offset: Vec): Vec {
    Act(RotYMat(t.cis(t.pi / 2.0)), Minus(Act(RotZMat(t.cis(-shoulder)), position), offset))
  }

  // ----- Shoulder ----------------------------------------------------------

  function Radius(t: Trig, m: Model, jt: Pose): real
    requires SixAxes(m)
  {
    PlanarNorm(t, Corrected(ArmOf(m), jt))
  }

  predicate OutOfReach(t: Trig, m: Model, jt: Pose)
    requires SixAxes(m)
  {
    || Radius(t, m, jt) < Abs(ShoulderOffset(ArmOf(m))) - ALGEBRA_TOLERANCE
    || Radius(t, m, jt) < ALGEBRA_TOLERANCE
  }

  function ShoulderAngle(t: Trig, m: Model, jt: Pose, sign: real): real
    requires SixAxes(m) && Radius(t, m, jt) > 0.0
  {
    PlanarAngle(t, Corrected(ArmOf(m), jt)) + sign * t.acos(ClampUnit(ShoulderOffset(ArmOf(m)) / Radius(t, m, jt)))
  }

  // ----- Wrist -------------------------------------------------------------

  function Sine(t: Trig, o: Mat): real {
    PlanarNorm(t, o.k)
  }

  function WristAngle(t: Trig, o: Mat): real {
    t.atan2(Sine(t, o), o.k.z)
  }

  function SignedWrist(t: Trig, o: Mat, sign: real): real {
    sign * WristAngle(t, o)
  }

  function RegularSum(t: Trig, o: Mat, sign: real): real {
    t.atan2(sign * o.k.x, -sign * o.k.y)
  }

  function RegularLast(t: Trig, o: Mat, sign: real): real {
    t.atan2(sign * o.i.z, sign * o.j.z)
  }

  /** The last joint that restores a singular orientation for a given sum. */
  function SingularLast(t: Trig, o: Mat, sum: real): real {
    var phase := t.atan2(o.i.y, o.i.x);
    if o.k.z > 0.0 then phase - sum else sum - phase
  }

  // ----- The candidates, in the order they are tried -----------------------

  function RegularBranch(t: Trig, m: Model, shoulder: real, o: Mat, local: Vec, sign: real): seq<Joints>
    requires t.Valid() && SixAxes(m) && SupportedOrigins(m.origins)
  {
    ElbowCandidates(t, m, shoulder, RegularSum(t, o, sign), SignedWrist(t, o, sign), RegularLast(t, o, sign), local)
  }

  function SingularBranch(t: Trig, m: Model, shoulder: real, o: Mat, local: Vec, sum: real): seq<Joints>
    requires t.Valid() && SixAxes(m) && SupportedOrigins(m.origins)
  {
    ElbowCandidates(t, m, shoulder, sum, WristAngle(t, o), SingularLast(t, o, sum), local)
  }

  function SingularCandidates(t: Trig, m: Model, shoulder: real, o: Mat, local: Vec, sums: seq<real>): seq<Joints>
    requires t.Valid() && SixAxes(m) && SupportedOrigins(m.origins)
  {
    if sums == [] then []
    else SingularCandidates(t, m, shoulder, o, local, sums[..|sums| - 1])
         + SingularBranch(t, m, shoulder, o, local, sums[|sums| - 1])
  }

  function Preferred(ref: Joints): real {
    ref[1] + ref[2] + ref[3]
  }

  function ShoulderCandidates(t: Trig, m: Model, jt: Pose, ref: Joints, shoulder: real): seq<Joints>
    requires t.Valid() && SixAxes(m) && SupportedOrigins(m.origins)
  {
    var o, local := OrientationOf(t, shoulder, jt.r), LocalTargetOf(t, m, shoulder, jt);
    if Sine(t, o) <= ALGEBRA_TOLERANCE then
      SingularCandidates(t, m, shoulder, o, local, Sums(t, m, local, WristAngle(t, o), Preferred(ref)))
    else
      RegularBranch(t, m, shoulder, o, local, -1.0) + RegularBranch(t, m, shoulder, o, local, 1.0)
  }

  function Candidates(t: Trig, m: Model, target: Pose, ref: Joints): seq<Joints>
    requires t.Valid() && SixAxes(m) && SupportedOrigins(m.origins)
  {
    var jt := JointTarget(m, target);
    if OutOfReach(t, m, jt) then []
    else ShoulderCandidates(t, m, jt, ref, ShoulderAngle(t, m, jt, -1.0))
         + ShoulderCandidates(t, m, jt, ref, ShoulderAngle(t, m, jt, 1.0))
  }

  /** The verified list of a target: every candidate in turn, lifted, rechecked and kept unless listed. */
  ghost function IkList(t: Trig, m: Model, target: Pose, ref: Joints): seq<Joints>
    requires t.Valid() && SixAxes(m) && SupportedOrigins(m.origins)
  {
    AppendedAll(t, m, target, ref, [], Candidates(t, m, target, ref))
  }

  method SolveSingular(t: Trig, m: Model, shoulder: real, o: Mat, local: Vec, target: Pose, ref: Joints,
                       solutions: SolutionList)
    requires t.Valid() && SixAxes(m) && SupportedOrigins(m.origins)
    modifies solutions
    ensures solutions.items == AppendedAll(t, m, target, ref, old(solutions.items),
              SingularCandidates(t, m, shoulder, o, local, Sums(t, m, local, WristAngle(t, o), Preferred(ref))))
  {
    hide Sums, SingularLast, ElbowCandidates, Appended, SupportedOrigins, WristAngle;
    ghost var was := solutions.items;
    var sums := SingularSums(t, m, local, WristAngle(t, o), Preferred(ref));
    for i := 0 to |sums|
      invariant solutions.items
             == AppendedAll(t, m, target, ref, was, SingularCandidates(t, m, shoulder, o, local, sums[..i]))
    {
      SolveElbow(t, m, shoulder, sums[i], WristAngle(t, o), SingularLast(t, o, sums[i]), local, target, ref, solutions);
      AppendedAllConcat(t, m, target, ref, was, SingularCandidates(t, m, shoulder, o, local, sums[..i]),
                        SingularBranch(t, m, shoulder, o, local, sums[i]));
      assert sums[..i + 1][..i] == sums[..i] && sums[..i + 1][i] == sums[i];
    }
    assert sums[..|sums|] == sums;
  }

  method SolveShoulder(t: Trig, m: Model, jt: Pose, shoulder: real, target: Pose, ref: Joints,
                       solutions: SolutionList)
    requires t.Valid() && SixAxes(m) && SupportedOrigins(m.origins)
    modifies solutions
    ensures solutions.items == AppendedAll(t, m, target, ref, old(solutions.items),
                                           ShoulderCandidates(t, m, jt, ref, shoulder))
  {
    hide Sums, ElbowCandidates, Appended, SupportedOrigins, WristAngle, SignedWrist, RegularSum, RegularLast,
         LocalTargetOf, OrientationOf, PlanarNorm;
    ghost var was := solutions.items;
    var o := OrientationOf(t, shoulder, jt.r);
    var local := LocalTargetOf(t, m, shoulder, jt);
    if Sine(t, o) <= ALGEBRA_TOLERANCE {
      SolveSingular(t, m, shoulder, o, local, target, ref, solutions);
      return;
    }
    ghost var first := RegularBranch(t, m, shoulder, o, local, -1.0);
    ghost var second := RegularBranch(t, m, shoulder, o, local, 1.0);
    for i := 0 to |SIGNS|
      invariant i == 0 ==> solutions.items == was
      invariant i == 1 ==> solutions.items == AppendedAll(t, m, target, ref, was, first)
      invariant i == 2 ==> solutions.items == AppendedAll(t, m, target, ref, was, first + second)
    {
      SolveElbow(t, m, shoulder, RegularSum(t, o, SIGNS[i]), SignedWrist(t, o, SIGNS[i]),
                 RegularLast(t, o, SIGNS[i]), local, target, ref, solutions);
      AppendedAllConcat(t, m, target, ref, was, first, second);
    }
  }

  /** What a caller gets to choose from: the verified list, or nothing when the target is refused. */
  ghost function Returned(t: Trig, m: Model, target: Pose, ref: Joints): seq<Joints>
    requires t.Valid() && SixAxes(m) && SupportedOrigins(m.origins)
  {
    if IsRigidPose(target) then IkList(t, m, target, ref) else []
  }

  /** All verified solutions of a target near a reference; a target that is no rigid pose is refused. */
  method ComputeIk(t: Trig, m: Model, target: Pose, ref: Joints) returns (result: Option<seq<Joints>>)
    requires t.Valid() && SixAxes(m) && SupportedOrigins(m.origins)
    ensures result == if IsRigidPose(target) then Some(Returned(t, m, target, ref)) else None
  {
    hide ShoulderCandidates, Appended, SupportedOrigins, PlanarNorm, Corrected, JointTarget, IsRigidPose;
    if !IsRigidPose(target) {
      return None;
    }
    var jt := JointTarget(m, target);
    var solutions := new SolutionList();
    if OutOfReach(t, m, jt) {
      return Some(solutions.items);
    }
    ghost var first := ShoulderCandidates(t, m, jt, ref, ShoulderAngle(t, m, jt, -1.0));
    ghost var second := ShoulderCandidates(t, m, jt, ref, ShoulderAngle(t, m, jt, 1.0));
    for i := 0 to |SIGNS|
      invariant i == 0 ==> solutions.items == []
      invariant i == 1 ==> solutions.items == AppendedAll(t, m, target, ref, [], first)
      invariant i == 2 ==> solutions.items == AppendedAll(t, m, target, ref, [], first + second)
    {
      SolveShoulder(t, m, jt, ShoulderAngle(t, m, jt, SIGNS[i]), target, ref, solutions);
      AppendedAllConcat(t, m, target, ref, [], first, second);
    }
    return Some(solutions.items);
  }
}

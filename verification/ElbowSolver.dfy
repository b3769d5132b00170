/** solve_elbow: the planar two-link step of the solver, on real joint angles. */
module ElbowSolver {
  import opened Geometry
  import opened Trigonometry
  import opened RobotModel
  import opened ShoulderElbow
  import opened JointLifting
  import opened SolutionSet
  import opened ArmModel

  function ClampUnit(v: real): real {
    if v < -1.0 then -1.0 else if v > 1.0 then 1.0 else v
  }

  /** The norm of the planar part. */
  function PlanarNorm(t: Trig, v: Vec): real {
    t.sqrt(PlanarSquare(v))
  }

  /** Direction of the planar part. */
  function PlanarAngle(t: Trig, v: Vec): real {
    t.atan2(v.y, v.x)
  }

  lemma PlanarPolar(t: Trig, v: Vec)
    requires t.Valid()
    ensures PlanarNorm(t, v) >= 0.0 && PlanarNorm(t, v) * PlanarNorm(t, v) == PlanarSquare(v)
    ensures Polar(v, PlanarNorm(t, v), t.cis(PlanarAngle(t, v)))
    ensures HasLength(v) ==> PlanarSquare(v) > 0.0
    ensures PlanarSquare(v) > 0.0 ==> PlanarNorm(t, v) > 0.0
  {
    hide Trig.Valid;
    SquareSign(v.x);
    SquareSign(v.y);
    assert PlanarSquare(v) == Sqr(v.x) + Sqr(v.y);
    t.SqrtOf(PlanarSquare(v));
    t.Atan2Of(v.y, v.x, PlanarNorm(t, v));
  }

  lemma LinkLengths(t: Trig, m: Model)
    requires t.Valid() && SixAxes(m) && SupportedOrigins(m.origins)
    ensures PlanarNorm(t, ArmOf(m).p3) > 0.0 && PlanarNorm(t, ArmOf(m).p4) > 0.0
    ensures 2.0 * PlanarNorm(t, ArmOf(m).p3) * PlanarNorm(t, ArmOf(m).p4) > 0.0
  {
    hide Trig.Valid, RotYMat, Polar, PlanarNorm, PlanarAngle, PlanarSquare;
    PlanarPolar(t, ArmOf(m).p3);
    PlanarPolar(t, ArmOf(m).p4);
    PositiveProduct(PlanarNorm(t, ArmOf(m).p3), PlanarNorm(t, ArmOf(m).p4),
                    PlanarNorm(t, ArmOf(m).p3) * PlanarNorm(t, ArmOf(m).p4));
  }

  /** The planar remainder after the wrist: D - Rz(s) p5 - Rz(s) Ry(90) Rz(w) p6. */
  function RemainingOf(t: Trig, m: Model, sum: real, wrist: real, local: Vec): Vec
    requires SixAxes(m)
  {
    Minus(Minus(local, Turned(t, sum, m.origins[4].p)), WristTurned(t, sum, wrist, m.origins[5].p))
  }

  function Turned(t: Trig, sum: real, v: Vec): Vec {
    Act(RotZMat(t.cis(sum)), v)
  }

  function WristTurned(t: Trig, sum: real, wrist: real, v: Vec): Vec {
    Act(Product(Product(RotZMat(t.cis(sum)), RotYMat(t.cis(t.pi / 2.0))), RotZMat(t.cis(wrist))), v)
  }

  /** The law-of-cosines value of the elbow. */
  function ElbowCosine(t: Trig, m: Model, remaining: Vec): real
    requires t.Valid() && SixAxes(m) && SupportedOrigins(m.origins)
  {
    LinkLengths(t, m);
    var l1, l2 := PlanarNorm(t, ArmOf(m).p3), PlanarNorm(t, ArmOf(m).p4);
    (PlanarSquare(remaining) - l1 * l1 - l2 * l2) / (2.0 * l1 * l2)
  }

  /** The interior elbow angle of one sign. */
  function ElbowOf(t: Trig, cosine: real, sign: real): real {
    sign * t.acos(ClampUnit(cosine))
  }

  /** The direction of the first link that puts the bent arm on the remainder. */
  function ArmOfElbow(t: Trig, l1: real, l2: real, remaining: Vec, elbow: real): real {
    PlanarAngle(t, remaining) - PlanarAngle(t, Bent(l1, l2, t.cis(elbow)))
  }

  /** The joint vector of one elbow sign. */
  function ElbowAngles(t: Trig, m: Model, shoulder: real, sum: real, wrist: real, last: real,
                       remaining: Vec, cosine: real, sign: real): Joints
    requires SixAxes(m)
  {
    var l1, l2 := PlanarNorm(t, ArmOf(m).p3), PlanarNorm(t, ArmOf(m).p4);
    var b1, b2 := PlanarAngle(t, ArmOf(m).p3), PlanarAngle(t, ArmOf(m).p4);
    var elbow := ElbowOf(t, cosine, sign);
    var arm := ArmOfElbow(t, l1, l2, remaining, elbow);
    var q1, q2 := arm - b1, elbow - b2 + b1;
    [shoulder, q1, q2, sum - q1 - q2, wrist, last]
  }

  /** The candidates of one shoulder and wrist: none, or one for each elbow sign. */
  function ElbowCandidates(t: Trig, m: Model, shoulder: real, sum: real, wrist: real, last: real, local: Vec)
    : seq<Joints>
    requires t.Valid() && SixAxes(m) && SupportedOrigins(m.origins)
  {
    var remaining := RemainingOf(t, m, sum, wrist, local);
    var cosine := ElbowCosine(t, m, remaining);
    if Abs(remaining.z - ArmOf(m).p3.z - ArmOf(m).p4.z) > POSITION_TOLERANCE then []
    else if Abs(cosine) > 1.0 + ALGEBRA_TOLERANCE then []
    else [ElbowAngles(t, m, shoulder, sum, wrist, last, remaining, cosine, -1.0),
          ElbowAngles(t, m, shoulder, sum, wrist, last, remaining, cosine, 1.0)]
  }

  const SIGNS := [-1.0, 1.0]

  /** Solves the elbow and hands each candidate to the verified list. */
  method SolveElbow(t: Trig, m: Model, shoulder: real, sum: real, wrist: real, last: real, local: Vec,
                    target: Pose, ref: Joints, solutions: SolutionList)
    requires t.Valid() && SixAxes(m) && SupportedOrigins(m.origins)
    modifies solutions
    ensures solutions.items == AppendedAll(t, m, target, ref, old(solutions.items),
                                           ElbowCandidates(t, m, shoulder, sum, wrist, last, local))
  {
    hide Appended, ElbowAngles, RemainingOf, ElbowCosine, RotYMat;
    ghost var was := solutions.items;
    var remaining := RemainingOf(t, m, sum, wrist, local);
    if Abs(remaining.z - m.origins[2].p.z - m.origins[3].p.z) > POSITION_TOLERANCE {
      return;
    }
    var cosine := ElbowCosine(t, m, remaining);
    if Abs(cosine) > 1.0 + ALGEBRA_TOLERANCE {
      return;
    }
    ghost var candidates := ElbowCandidates(t, m, shoulder, sum, wrist, last, local);
    for i := 0 to |SIGNS|
      invariant solutions.items == AppendedAll(t, m, target, ref, was, candidates[..i])
    {
      var angles := ElbowAngles(t, m, shoulder, sum, wrist, last, remaining, cosine, SIGNS[i]);
      solutions.AppendVerified(t, m, target, ref, angles);
      assert candidates[..i + 1][..i] == candidates[..i] && candidates[..i + 1][i] == angles;
    }
    assert candidates[..2] == candidates;
  }
}

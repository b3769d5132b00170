/** The enumeration of branches is exact and misses no joint vector that reaches the target. */
module IkProof {
  import opened Geometry
  import opened Trigonometry
  import opened RobotModel
  import opened ModelExport
  import opened ArmAlgebra
  import opened WristSplit
  import opened ShoulderElbow
  import opened JointLifting
  import opened SolutionSet
  import opened ArmModel
  import opened ElbowSolver
  import opened ElbowProof
  import opened SingularWrist
  import opened InverseKinematics

  // ----- Frames ------------------------------------------------------------

  lemma ColumnMatches(t: Trig, shoulder: real, v: Vec)
    requires t.Valid()
    ensures Act(LocalRotation(t, shoulder), v) == Local(t.cis(shoulder), v)
  {
    hide Act, RotY, RotZ, RotYMat, RotZMat, Product, Trig.Valid, TurnY;
    QuarterPair(t);
    t.CisNeg(shoulder);
    ActProduct(RotYMat(t.cis(t.pi / 2.0)), RotZMat(t.cis(-shoulder)), v);
    ActRotations(t.cis(-shoulder), v);
    ActRotations(QUARTER, RotZ(t.cis(-shoulder), v));
    TurnIsRotY(RotZ(t.cis(-shoulder), v));
  }

  lemma OrientationMatches(t: Trig, shoulder: real, r: Mat)
    requires t.Valid()
    ensures OrientationOf(t, shoulder, r) == Orientation(t.cis(shoulder), r)
  {
    hide Act, Local, LocalRotation, Trig.Valid;
    ColumnMatches(t, shoulder, r.i);
    ColumnMatches(t, shoulder, r.j);
    ColumnMatches(t, shoulder, r.k);
  }

  lemma TargetMatches(t: Trig, m: Model, shoulder: real, jt: Pose)
    requires t.Valid() && SixAxes(m)
    ensures LocalTargetOf(t, m, shoulder, jt) == Local3(t, m, jt, shoulder)
  {
    hide Act, RotY, RotZ, RotYMat, RotZMat, Trig.Valid, TurnY, Minus;
    var lifted := Minus(jt.p, m.origins[0].p);
    QuarterPair(t);
    t.CisNeg(shoulder);
    ActRotations(t.cis(-shoulder), lifted);
    var inner := Minus(RotZ(t.cis(-shoulder), lifted), m.origins[1].p);
    ActRotations(QUARTER, inner);
    TurnIsRotY(inner);
  }

  // ----- Shoulder ----------------------------------------------------------

  /** The signed distance of a planar vector from the plane at angle u. */
  lemma PlaneDistance(v: Vec, k: real, f: Unit, u: Unit)
    requires Polar(v, k, f)
    ensures RotZ(Neg(u), v).x == k * Add(u, Neg(f)).c
  {
    PlaneScalar(u.c, u.s, v.x, v.y, k, f.c, f.s, Add(u, Neg(f)).c);
  }

  lemma PlaneScalar(c: real, s: real, x: real, y: real, k: real, d: real, e: real, n: real)
    requires x == k * d && y == k * e && n == c * d - s * (-e)
    ensures c * x - (-s) * y == k * n
  {
  }

  lemma CosineRatio(k: real, a: real, c: real)
    requires k > 0.0
    ensures k * c == a <==> c == a / k
    ensures k >= Abs(a) ==> -1.0 <= a / k <= 1.0
  {
    DivideBack(a, k);
    if k * c == a {
      CosineUnique(k, c, a / k);
    }
    if k >= Abs(a) {
      RatioRange(k, a, a / k);
    }
  }

  lemma RatioRange(k: real, a: real, x: real)
    requires k > 0.0 && k >= Abs(a) && k * x == a
    ensures -1.0 <= x <= 1.0
  {
    if x > 1.0 {
      PositiveProduct(k, x - 1.0, k * x - k);
    } else if x < -1.0 {
      PositiveProduct(k, -1.0 - x, -k - k * x);
    }
  }

  /** Both shoulder angles put the corrected target in the plane of the arm. */
  lemma ShoulderSound(t: Trig, m: Model, jt: Pose, sign: real)
    requires t.Valid() && SixAxes(m) && (sign == 1.0 || sign == -1.0)
    requires Radius(t, m, jt) > 0.0 && Radius(t, m, jt) >= Abs(ShoulderOffset(ArmOf(m)))
    ensures InPlane(ArmOf(m), jt, t.cis(ShoulderAngle(t, m, jt, sign)))
  {
    hide Trig.Valid, RotZ, Add, Neg, PlanarNorm, PlanarAngle, Corrected, ShoulderOffset, IsUnit, Polar, ArmOf;
    var v, k, a := Corrected(ArmOf(m), jt), Radius(t, m, jt), ShoulderOffset(ArmOf(m));
    var phase, delta := PlanarAngle(t, v), sign * t.acos(ClampUnit(a / k));
    PlanarPolar(t, v);
    CosineRatio(k, a, a / k);
    AcosOf(t, a / k);
    t.CisAdd(delta, phase);
    assert phase + delta == delta + phase;
    t.CisUnit(phase);
    AddCancel(t.cis(delta), t.cis(phase));
    SignedCosine(t, t.acos(a / k), sign);
    PlaneDistance(v, k, t.cis(phase), t.cis(phase + delta));
  }

  lemma SignedCosine(t: Trig, x: real, sign: real)
    requires t.Valid() && (sign == 1.0 || sign == -1.0)
    ensures t.cis(sign * x) == Unit(t.cis(x).c, sign * t.cis(x).s)
  {
    hide Trig.Valid;
    t.CisNeg(x);
    SignedReal(sign, x);
    SignedReal(sign, t.cis(x).s);
  }

  lemma SignedReal(sign: real, x: real)
    requires sign == 1.0 || sign == -1.0
    ensures sign * x == if sign == 1.0 then x else -x
  {
  }

  /** The first joint of any solution is one of the two shoulder angles. */
  lemma ShoulderComplete(t: Trig, m: Model, jt: Pose, u1: Unit) returns (sign: real)
    requires t.Valid() && SixAxes(m) && Radius(t, m, jt) > 0.0 && IsUnit(u1) && InPlane(ArmOf(m), jt, u1)
    ensures (sign == 1.0 || sign == -1.0) && u1 == t.cis(ShoulderAngle(t, m, jt, sign))
    ensures Radius(t, m, jt) >= Abs(ShoulderOffset(ArmOf(m)))
  {
    hide Trig.Valid, RotZ, Add, Neg, PlanarNorm, PlanarAngle, Corrected, ShoulderOffset, IsUnit, Polar, ArmOf;
    var v, k, a := Corrected(ArmOf(m), jt), Radius(t, m, jt), ShoulderOffset(ArmOf(m));
    var f := t.cis(PlanarAngle(t, v));
    var d := Add(u1, Neg(f));
    PlanarPolar(t, v);
    PlaneDistance(v, k, f, u1);
    CosineRatio(k, a, d.c);
    t.CisUnit(PlanarAngle(t, v));
    AddIsUnit(f, f);
    AddIsUnit(u1, Neg(f));
    AcosBranches(t, a / k, d);
    RadiusBound(k, a, a / k);
    sign := if d == t.cis(1.0 * t.acos(a / k)) then 1.0 else -1.0;
    AddCancel(u1, f);
    t.CisAdd(sign * t.acos(a / k), PlanarAngle(t, v));
    assert PlanarAngle(t, v) + sign * t.acos(a / k) == sign * t.acos(a / k) + PlanarAngle(t, v);
  }

  lemma RadiusBound(k: real, a: real, x: real)
    requires k > 0.0 && -1.0 <= x <= 1.0 && x == a / k
    ensures k >= Abs(a)
  {
    DivideBack(a, k);
    NonNegative(k, 1.0 - x);
    NonNegative(k, 1.0 + x);
    assert k * (1.0 - x) == k - a && k * (1.0 + x) == k + a;
  }

  // ----- Regular wrist -----------------------------------------------------

  /** The third column and row of a rotation share their vertical entry, so their planar parts are equally long. */
  lemma SineLengths(t: Trig, o: Mat)
    requires t.Valid() && IsRotation(o)
    ensures var n := Sine(t, o);
            && n >= 0.0 && n * n == o.k.x * o.k.x + o.k.y * o.k.y
            && n * n == o.i.z * o.i.z + o.j.z * o.j.z
            && 1.0 * 1.0 == n * n + o.k.z * o.k.z
  {
    hide Trig.Valid, Polar, IsRotation, PlanarNorm;
    PlanarPolar(t, o.k);
    VerticalEntries(o);
  }

  lemma VerticalEntries(o: Mat)
    requires IsRotation(o)
    ensures o.k.x * o.k.x + o.k.y * o.k.y + o.k.z * o.k.z == 1.0
    ensures o.i.z * o.i.z + o.j.z * o.j.z + o.k.z * o.k.z == 1.0
  {
    hide Determinant;
    RowNorms(o);
  }

  lemma WristPair(t: Trig, o: Mat, sign: real)
    requires t.Valid() && IsRotation(o) && (sign == 1.0 || sign == -1.0)
    ensures t.cis(SignedWrist(t, o, sign)) == Unit(o.k.z, sign * Sine(t, o))
  {
    hide Trig.Valid, IsRotation, Sine;
    SineLengths(t, o);
    t.Atan2Of(Sine(t, o), o.k.z, 1.0);
    SignedCosine(t, WristAngle(t, o), sign);
  }

  /** The two arc tangents whose arguments carry the wrist sign. */
  lemma SignedDirection(t: Trig, y: real, x: real, n: real, sign: real)
    requires t.Valid() && (sign == 1.0 || sign == -1.0) && n >= 0.0 && n * n == x * x + y * y
    ensures var u := t.cis(t.atan2(sign * y, sign * x));
            u.s * (sign * n) == y && u.c * (sign * n) == x
  {
    hide Trig.Valid;
    SignedSquares(sign, y, x, n);
    t.Atan2Of(sign * y, sign * x, n);
    var u := t.cis(t.atan2(sign * y, sign * x));
    Unsigned(sign, n, u.s, y);
    Unsigned(sign, n, u.c, x);
  }

  lemma SignedSquares(sign: real, y: real, x: real, n: real)
    requires (sign == 1.0 || sign == -1.0) && n * n == x * x + y * y
    ensures n * n == (sign * x) * (sign * x) + (sign * y) * (sign * y)
  {
  }

  lemma Unsigned(sign: real, n: real, a: real, b: real)
    requires (sign == 1.0 || sign == -1.0) && sign * b == n * a
    ensures a * (sign * n) == b
  {
  }

  lemma RegularPairs(t: Trig, o: Mat, sign: real)
    requires t.Valid() && IsRotation(o) && (sign == 1.0 || sign == -1.0)
    ensures var n := sign * Sine(t, o);
            var s, l := t.cis(RegularSum(t, o, sign)), t.cis(RegularLast(t, o, sign));
            s.s * n == o.k.x && s.c * n == -o.k.y && l.s * n == o.i.z && l.c * n == o.j.z
  {
    hide Trig.Valid, IsRotation, Sine;
    SineLengths(t, o);
    SignedDirection(t, o.k.x, -o.k.y, Sine(t, o), sign);
    SignedDirection(t, o.i.z, o.j.z, Sine(t, o), sign);
    assert sign * -o.k.y == -sign * o.k.y;
  }

  /** The three wrist angles of either sign restore the orientation. */
  lemma RegularSound(t: Trig, o: Mat, sign: real)
    requires t.Valid() && IsRotation(o) && (sign == 1.0 || sign == -1.0) && Sine(t, o) > 0.0
    ensures Wrist(t.cis(RegularSum(t, o, sign)), t.cis(SignedWrist(t, o, sign)), t.cis(RegularLast(t, o, sign))) == o
  {
    hide Trig.Valid, IsRotation, Sine, Wrist, IsUnit, WristAngle, RegularSum, RegularLast, RegularWrist;
    WristPair(t, o, sign);
    RegularPairs(t, o, sign);
    var n := sign * Sine(t, o);
    SignedReal(sign, Sine(t, o));
    var s, w, l := t.cis(RegularSum(t, o, sign)), t.cis(SignedWrist(t, o, sign)), t.cis(RegularLast(t, o, sign));
    t.CisUnit(RegularSum(t, o, sign));
    t.CisUnit(SignedWrist(t, o, sign));
    t.CisUnit(RegularLast(t, o, sign));
    RegularFromSigned(o, s, w, l, n);
    RegularWristIff(o, s, w, l);
  }

  lemma RegularFromSigned(o: Mat, s: Unit, w: Unit, l: Unit, n: real)
    requires w == Unit(o.k.z, n) && s.s * n == o.k.x && s.c * n == -o.k.y && l.s * n == o.i.z && l.c * n == o.j.z
    ensures RegularWrist(o, s, w, l)
  {
  }

  /** A regular wrist has no other solutions. */
  lemma RegularComplete(t: Trig, o: Mat, s: Unit, w: Unit, l: Unit) returns (sign: real)
    requires t.Valid() && IsRotation(o) && IsUnit(s) && IsUnit(w) && IsUnit(l) && w.s != 0.0 && Wrist(s, w, l) == o
    ensures (sign == 1.0 || sign == -1.0) && Sine(t, o) == Abs(w.s)
    ensures s == t.cis(RegularSum(t, o, sign)) && w == t.cis(SignedWrist(t, o, sign))
         && l == t.cis(RegularLast(t, o, sign))
  {
    hide Trig.Valid, IsRotation, Sine, Wrist, WristAngle, RegularWrist, IsUnit, RegularSum, RegularLast;
    var n := Sine(t, o);
    SineLengths(t, o);
    RegularWristIff(o, s, w, l);
    WristSine(o, s, w, l, n);
    sign := if w.s == n then 1.0 else -1.0;
    SignedReal(sign, n);
    RegularRecovered(t, o, s, w, l, sign);
  }

  lemma RegularRecovered(t: Trig, o: Mat, s: Unit, w: Unit, l: Unit, sign: real)
    requires t.Valid() && IsRotation(o) && (sign == 1.0 || sign == -1.0)
    requires RegularWrist(o, s, w, l) && w.s == sign * Sine(t, o) && w.s != 0.0
    ensures s == t.cis(RegularSum(t, o, sign)) && w == t.cis(SignedWrist(t, o, sign))
         && l == t.cis(RegularLast(t, o, sign))
  {
    hide *;
    WristPair(t, o, sign);
    RegularPairs(t, o, sign);
    RegularSigned(o, s, w, l, w.s);
    SameDirection(w.s, s, t.cis(RegularSum(t, o, sign)), -o.k.y, o.k.x);
    SameDirection(w.s, l, t.cis(RegularLast(t, o, sign)), o.j.z, o.i.z);
  }

  lemma WristSine(o: Mat, s: Unit, w: Unit, l: Unit, n: real)
    requires RegularWrist(o, s, w, l) && IsUnit(w) && w.s != 0.0
    requires n >= 0.0 && 1.0 * 1.0 == n * n + o.k.z * o.k.z
    ensures n == Abs(w.s) && n > 0.0
  {
    SameSine(n, w.c, w.s);
  }

  lemma RegularSigned(o: Mat, s: Unit, w: Unit, l: Unit, n: real)
    requires RegularWrist(o, s, w, l) && w.s == n
    ensures w == Unit(o.k.z, n) && s.s * n == o.k.x && s.c * n == -o.k.y && l.s * n == o.i.z && l.c * n == o.j.z
  {
  }

  lemma SameSine(n: real, c: real, s: real)
    requires n >= 0.0 && 1.0 == n * n + c * c && c * c + s * s == 1.0 && s != 0.0
    ensures n == Abs(s) && n > 0.0
  {
    assert (n - s) * (n + s) == 0.0;
    if n != s {
      assert n + s == 0.0;
    }
  }

  lemma SameDirection(k: real, u: Unit, v: Unit, x: real, y: real)
    requires k != 0.0 && u.s * k == y && u.c * k == x && v.s * k == y && v.c * k == x
    ensures u == v
  {
    CancelReal(k, u.s, v.s);
    CancelReal(k, u.c, v.c);
  }

  // ----- Singular wrist ----------------------------------------------------

  /** A vanishing sine means a vertical third column, and the wrist angle is then 0 or a half turn. */
  lemma SingularPair(t: Trig, o: Mat)
    requires t.Valid() && IsRotation(o) && Sine(t, o) == 0.0
    ensures o.k.x == 0.0 && o.k.y == 0.0 && t.cis(WristAngle(t, o)) == Unit(o.k.z, 0.0)
    ensures t.cis(t.atan2(o.i.y, o.i.x)) == PlaneAngle(o)
  {
    hide Trig.Valid, IsRotation, Sine, WristAngle;
    SineLengths(t, o);
    assert Sqr(o.k.x) + Sqr(o.k.y) + Sqr(0.0) == 0.0;
    ZeroSquares(o.k.x, o.k.y, 0.0);
    WristPair(t, o, 1.0);
    assert 1.0 * WristAngle(t, o) == WristAngle(t, o);
    VerticalOrientation(o);
    t.Atan2Of(o.i.y, o.i.x, 1.0);
  }

  /** For every sum the last joint restores the singular orientation. */
  lemma SingularSound(t: Trig, o: Mat, sum: real)
    requires t.Valid() && IsRotation(o) && Sine(t, o) == 0.0
    ensures Wrist(t.cis(sum), t.cis(WristAngle(t, o)), t.cis(SingularLast(t, o, sum))) == o
  {
    hide Trig.Valid, IsRotation, Sine, Wrist, WristAngle, PlaneAngle, Add, Neg;
    SingularPair(t, o);
    var phase := t.atan2(o.i.y, o.i.x);
    var s, w, l := t.cis(sum), t.cis(WristAngle(t, o)), t.cis(SingularLast(t, o, sum));
    VerticalIsFlat(o);
    SingularWristIff(o, s, w, l);
    t.CisAdd(sum, phase - sum);
    t.CisSubtract(sum, sum - phase);
    assert sum + (phase - sum) == phase && sum - (sum - phase) == phase;
  }

  // ----- Rigid targets -----------------------------------------------------

  lemma {:induction false} SceneIsRigid(t: Trig, origins: seq<Pose>, q: Joints, n: nat)
    requires t.Valid() && SupportedOrigins(origins) && n <= JOINT_COUNT == |origins|
    ensures IsRigid(SceneChain(t, origins, q, n))
  {
    hide Compose, SupportedOrigins, Trig.Valid, IsRotation;
    if n == 0 {
      IdentityIsRotation();
    } else {
      SceneIsRigid(t, origins, q, n - 1);
      OriginsAreRigid(origins, n - 1);
      t.CisUnit(q[n - 1]);
      RotZMatIsRotation(t.cis(q[n - 1]));
      ComposeIsRigid(SceneChain(t, origins, q, n - 1), origins[n - 1]);
      ComposeIsRigid(Compose(SceneChain(t, origins, q, n - 1), origins[n - 1]), RotZPose(t.cis(q[n - 1])));
    }
  }

  /** Whatever the joints, the flange pose is rigid, so the solver never refuses it. */
  lemma FkIsRigid(t: Trig, m: Model, q: Joints)
    requires t.Valid() && SixAxes(m) && SupportedOrigins(m.origins) && ChainsAgree(t, m) && IsRigid(m.joint6FromFlange)
    ensures IsRigid(Fk(t, m, q)) && IsRigidPose(Fk(t, m, q))
  {
    hide Compose, SupportedOrigins, Trig.Valid, IsRigid, Fk, SceneChain, IsRigidPose;
    SceneIsRigid(t, m.origins, q, JOINT_COUNT);
    ComposeIsRigid(SceneChain(t, m.origins, q, JOINT_COUNT), m.joint6FromFlange);
    RigidIsAccepted(Fk(t, m, q));
  }

  lemma RigidIsAccepted(p: Pose)
    requires IsRigid(p)
    ensures IsRigidPose(p)
  {
    hide IsRotation, Act, Determinant, Transpose, SquaredDistance;
    RotationDeterminant(p.r);
    TransposeInverts(p.r, EX);
    TransposeInverts(p.r, EY);
    TransposeInverts(p.r, EZ);
    ActBasis(p.r);
    assert Product(Transpose(p.r), p.r) == IDENTITY;
    DistanceOfEquals(IDENTITY);
  }

  /** What passes the check is a rotation up to 1e-7: lengths and right angles of the columns, and the determinant. */
  lemma AcceptedIsNearlyRigid(p: Pose)
    requires IsRigidPose(p)
    ensures var m := p.r;
            && VecWithin(Vec(Dot(m.i, m.i), Dot(m.j, m.j), Dot(m.k, m.k)), Vec(1.0, 1.0, 1.0), 0.0000001)
            && VecWithin(Vec(Dot(m.i, m.j), Dot(m.j, m.k), Dot(m.k, m.i)), ZERO, 0.0000001)
            && 1.0 - 0.0000001 < Determinant(m) < 1.0 + 0.0000001
  {
    hide Act, Dot, Determinant, SquaredNorm, Transpose;
    var m := p.r;
    TransposeAct(m, m.i);
    TransposeAct(m, m.j);
    TransposeAct(m, m.k);
    NormBounds(Act(Transpose(m), m.i), EX, 0.0000001, 1.0);
    NormBounds(Act(Transpose(m), m.j), EY, 0.0000001, 1.0);
    NormBounds(Act(Transpose(m), m.k), EZ, 0.0000001, 1.0);
    DotComm(m.k, m.i);
  }

  lemma RotationDeterminant(m: Mat)
    requires IsRotation(m)
    ensures Determinant(m) == 1.0
  {
    hide Determinant, Dot;
  }

  lemma DistanceOfEquals(a: Mat)
    ensures SquaredDistance(a, a) == 0.0
  {
    hide SquaredNorm, Minus;
    NothingApart(a.i);
    NothingApart(a.j);
    NothingApart(a.k);
  }

  lemma NothingApart(v: Vec)
    ensures SquaredNorm(Minus(v, v)) == 0.0
  {
    assert Minus(v, v) == ZERO;
  }

  lemma TargetIsRigid(m: Model, target: Pose)
    requires IsRigid(target) && IsRigid(m.joint6FromFlange)
    ensures IsRigid(JointTarget(m, target))
  {
    hide IsRigid, Compose, Inverse;
    ComposeIsRigid(m.joint6FromFlange, m.joint6FromFlange);
    ComposeIsRigid(target, Inverse(m.joint6FromFlange));
  }

  // ----- Soundness of the branches -----------------------------------------

  /** The arm's equations describe the forward kinematics. */
  ghost predicate FkMeets(t: Trig, m: Model, target: Pose)
    requires SixAxes(m)
  {
    forall q: Joints :: Fk(t, m, q) == target <==> MeetsTarget(t, m, target, q)
  }

  predicate MeetsTarget(t: Trig, m: Model, target: Pose, q: Joints)
    requires SixAxes(m)
  {
    Meets(ArmOf(m), TurnsOf(t, q), JointTarget(m, target))
  }

  /** They do whenever the two chains of the model agree. */
  lemma AgreeingChainsMeet(t: Trig, m: Model, target: Pose)
    requires t.Valid() && SixAxes(m) && SupportedOrigins(m.origins) && ChainsAgree(t, m) && IsRigid(m.joint6FromFlange)
    ensures FkMeets(t, m, target)
  {
    hide Trig.Valid, SupportedOrigins, ChainsAgree, IsRigid, Fk, Meets, TurnsOf, JointTarget, ArmOf;
    forall q: Joints
      ensures Fk(t, m, q) == target <==> MeetsTarget(t, m, target, q)
    {
      FkIff(t, m, q, target);
    }
  }

  lemma MeetingReaches(t: Trig, m: Model, target: Pose, q: Joints)
    requires SixAxes(m) && FkMeets(t, m, target) && Meets(ArmOf(m), TurnsOf(t, q), JointTarget(m, target))
    ensures Fk(t, m, q) == target
  {
    hide Fk, Meets, TurnsOf, JointTarget, ArmOf;
    assert MeetsTarget(t, m, target, q);
  }

  /** Two candidates, both reaching the target with no error. */
  predicate ExactPair(t: Trig, m: Model, target: Pose, branch: seq<Joints>)
    requires SixAxes(m)
  {
    |branch| == 2 && Fk(t, m, branch[0]) == target && Fk(t, m, branch[1]) == target
  }

  /** The candidates of one solved shoulder and wrist: both elbows, each reaching the target exactly. */
  lemma PreparedBranch(t: Trig, m: Model, target: Pose, shoulder: real, sum: real, wrist: real, last: real, local: Vec)
    requires t.Valid() && SixAxes(m) && SupportedOrigins(m.origins) && FkMeets(t, m, target)
    requires Prepared(t, m, JointTarget(m, target), shoulder, sum, wrist, last)
    requires local == Local3(t, m, JointTarget(m, target), shoulder) && SumFeasible(t, m, local, wrist, sum)
    ensures ExactPair(t, m, target, ElbowCandidates(t, m, shoulder, sum, wrist, last, local))
  {
    hide ElbowCosine, RemainingOf, ElbowAngles, Prepared, Meets, Fk, FkMeets, IsRigid, Trig.Valid, JointTarget,
         Local3, ArmOf, SupportedOrigins;
    var jt, remaining := JointTarget(m, target), RemainingOf(t, m, sum, wrist, local);
    var cosine := ElbowCosine(t, m, remaining);
    HeightHolds(t, m, jt, shoulder, sum, wrist, last);
    ElbowSound(t, m, jt, shoulder, sum, wrist, last, -1.0);
    ElbowSound(t, m, jt, shoulder, sum, wrist, last, 1.0);
    MeetingReaches(t, m, target, ElbowAngles(t, m, shoulder, sum, wrist, last, remaining, cosine, -1.0));
    MeetingReaches(t, m, target, ElbowAngles(t, m, shoulder, sum, wrist, last, remaining, cosine, 1.0));
  }

  /** A target whose shoulder circle meets the plane of the arm. */
  predicate InReach(t: Trig, m: Model, target: Pose)
    requires SixAxes(m)
  {
    var r := Radius(t, m, JointTarget(m, target));
    r > 0.0 && r >= Abs(ShoulderOffset(ArmOf(m)))
  }

  /** What compute_ik has worked out when it turns to one side of the shoulder. */
  ghost predicate IsFrame(t: Trig, m: Model, jt: Pose, side: real, shoulder: real, o: Mat, local: Vec)
    requires SixAxes(m)
  {
    && (side == 1.0 || side == -1.0)
    && Radius(t, m, jt) > 0.0 && shoulder == ShoulderAngle(t, m, jt, side)
    && o == OrientationOf(t, shoulder, jt.r) && local == LocalTargetOf(t, m, shoulder, jt)
  }

  lemma FrameHolds(t: Trig, m: Model, target: Pose, side: real, shoulder: real, o: Mat, local: Vec)
    requires t.Valid() && SixAxes(m) && IsRigid(target) && IsRigid(m.joint6FromFlange)
    requires IsFrame(t, m, JointTarget(m, target), side, shoulder, o, local)
    ensures var jt := JointTarget(m, target);
            && IsRotation(o) && o == Orientation(t.cis(shoulder), jt.r) && local == Local3(t, m, jt, shoulder)
            && (InReach(t, m, target) ==> InPlane(ArmOf(m), jt, t.cis(shoulder)))
  {
    hide IsRotation, Trig.Valid, JointTarget, OrientationOf, LocalTargetOf, Local3, Orientation, ShoulderAngle, Radius,
         ArmOf, InPlane, ShoulderOffset;
    var jt := JointTarget(m, target);
    TargetIsRigid(m, target);
    t.CisUnit(shoulder);
    OrientationIsRotation(t.cis(shoulder), jt.r);
    OrientationMatches(t, shoulder, jt.r);
    TargetMatches(t, m, shoulder, jt);
    if InReach(t, m, target) {
      ShoulderSound(t, m, jt, side);
    }
  }

  /** Every regular branch reproduces a target in reach: exactly two candidates, both exact. */
  lemma RegularBranchSound(t: Trig, m: Model, target: Pose, side: real, shoulder: real, o: Mat, local: Vec, sign: real)
    requires t.Valid() && SixAxes(m) && SupportedOrigins(m.origins) && IsRigid(m.joint6FromFlange)
    requires FkMeets(t, m, target)
    requires IsRigid(target) && InReach(t, m, target) && (sign == 1.0 || sign == -1.0)
    requires IsFrame(t, m, JointTarget(m, target), side, shoulder, o, local) && Sine(t, o) > 0.0
    requires SumFeasible(t, m, local, SignedWrist(t, o, sign), RegularSum(t, o, sign))
    ensures ExactPair(t, m, target, RegularBranch(t, m, shoulder, o, local, sign))
  {
    hide *;
    FrameHolds(t, m, target, side, shoulder, o, local);
    RegularSound(t, o, sign);
    RegularBranchIs(t, m, shoulder, o, local, sign);
    PreparedWhen(t, m, JointTarget(m, target), shoulder, RegularSum(t, o, sign), SignedWrist(t, o, sign),
                 RegularLast(t, o, sign));
    PreparedBranch(t, m, target, shoulder, RegularSum(t, o, sign), SignedWrist(t, o, sign), RegularLast(t, o, sign),
                   local);
  }

  lemma RegularBranchIs(t: Trig, m: Model, shoulder: real, o: Mat, local: Vec, sign: real)
    requires t.Valid() && SixAxes(m) && SupportedOrigins(m.origins)
    ensures RegularBranch(t, m, shoulder, o, local, sign) == ElbowCandidates(t, m, shoulder, RegularSum(t, o, sign),
                                                               SignedWrist(t, o, sign), RegularLast(t, o, sign), local)
  {
    hide RegularSum, RegularLast, SignedWrist, ElbowCandidates, Trig.Valid, SupportedOrigins;
  }

  lemma PreparedWhen(t: Trig, m: Model, jt: Pose, shoulder: real, sum: real, wrist: real, last: real)
    requires SixAxes(m) && InPlane(ArmOf(m), jt, t.cis(shoulder))
    requires Wrist(t.cis(sum), t.cis(wrist), t.cis(last)) == Orientation(t.cis(shoulder), jt.r)
    ensures Prepared(t, m, jt, shoulder, sum, wrist, last)
  {
    hide InPlane, Wrist, Orientation;
  }

  /** The elbow of a branch has an exact solution, or the branch is skipped: the clamp is never used. */
  predicate Unclamped(t: Trig, m: Model, o: Mat, local: Vec, sign: real)
    requires t.Valid() && SixAxes(m) && SupportedOrigins(m.origins)
  {
    || SumFeasible(t, m, local, SignedWrist(t, o, sign), RegularSum(t, o, sign))
    || Abs(ElbowCosine(t, m, RemainingOf(t, m, RegularSum(t, o, sign), SignedWrist(t, o, sign), local)))
         > 1.0 + ALGEBRA_TOLERANCE
  }

  predicate ClearWrist(t: Trig, m: Model, o: Mat, local: Vec)
    requires t.Valid() && SixAxes(m) && SupportedOrigins(m.origins)
  {
    Sine(t, o) > ALGEBRA_TOLERANCE && Unclamped(t, m, o, local, -1.0) && Unclamped(t, m, o, local, 1.0)
  }

  /** One side of the shoulder has a tilted wrist and no clamped elbow. */
  predicate ClearSide(t: Trig, m: Model, jt: Pose, side: real)
    requires t.Valid() && SixAxes(m) && SupportedOrigins(m.origins) && Radius(t, m, jt) > 0.0
  {
    var shoulder := ShoulderAngle(t, m, jt, side);
    ClearWrist(t, m, OrientationOf(t, shoulder, jt.r), LocalTargetOf(t, m, shoulder, jt))
  }

  ghost predicate AllExact(t: Trig, m: Model, target: Pose, qs: seq<Joints>)
    requires SixAxes(m)
  {
    forall i :: 0 <= i < |qs| ==> Fk(t, m, qs[i]) == target
  }

  lemma BranchExact(t: Trig, m: Model, target: Pose, side: real, shoulder: real, o: Mat, local: Vec, sign: real)
    requires t.Valid() && SixAxes(m) && SupportedOrigins(m.origins) && IsRigid(m.joint6FromFlange)
    requires FkMeets(t, m, target)
    requires IsRigid(target) && InReach(t, m, target) && (sign == 1.0 || sign == -1.0)
    requires IsFrame(t, m, JointTarget(m, target), side, shoulder, o, local) && Sine(t, o) > 0.0
    requires Unclamped(t, m, o, local, sign)
    ensures var branch := RegularBranch(t, m, shoulder, o, local, sign);
            |branch| <= 2 && AllExact(t, m, target, branch)
  {
    hide SupportedOrigins, FkMeets, IsRigid, InReach, IsFrame, Sine, Fk, Trig.Valid, RegularSum, SignedWrist,
         RegularLast, ElbowCosine, RemainingOf, ElbowAngles, JointTarget;
    if SumFeasible(t, m, local, SignedWrist(t, o, sign), RegularSum(t, o, sign)) {
      RegularBranchSound(t, m, target, side, shoulder, o, local, sign);
    }
  }

  /** With no clamped branch, every candidate reaches the target with no error, and there are at most eight. */
  lemma CandidatesSound(t: Trig, m: Model, target: Pose, ref: Joints)
    requires t.Valid() && SixAxes(m) && SupportedOrigins(m.origins) && ChainsAgree(t, m) && IsRigid(m.joint6FromFlange)
    requires IsRigid(target) && InReach(t, m, target)
    requires ClearSide(t, m, JointTarget(m, target), -1.0) && ClearSide(t, m, JointTarget(m, target), 1.0)
    ensures |Candidates(t, m, target, ref)| <= 8 && AllExact(t, m, target, Candidates(t, m, target, ref))
  {
    hide SupportedOrigins, ChainsAgree, FkMeets, IsRigid, Radius, Fk, Trig.Valid, JointTarget, ShoulderCandidates,
         ClearWrist, ShoulderAngle, OrientationOf, LocalTargetOf, ShoulderOffset, ArmOf;
    var jt := JointTarget(m, target);
    var left, right := ShoulderAngle(t, m, jt, -1.0), ShoulderAngle(t, m, jt, 1.0);
    AgreeingChainsMeet(t, m, target);
    SideSound(t, m, target, ref, -1.0, left, OrientationOf(t, left, jt.r), LocalTargetOf(t, m, left, jt));
    SideSound(t, m, target, ref, 1.0, right, OrientationOf(t, right, jt.r), LocalTargetOf(t, m, right, jt));
  }

  lemma SideSound(t: Trig, m: Model, target: Pose, ref: Joints, side: real, shoulder: real, o: Mat, local: Vec)
    requires t.Valid() && SixAxes(m) && SupportedOrigins(m.origins) && IsRigid(m.joint6FromFlange)
    requires FkMeets(t, m, target)
    requires IsRigid(target) && InReach(t, m, target)
    requires IsFrame(t, m, JointTarget(m, target), side, shoulder, o, local) && ClearWrist(t, m, o, local)
    ensures |ShoulderCandidates(t, m, JointTarget(m, target), ref, shoulder)| <= 4
    ensures AllExact(t, m, target, ShoulderCandidates(t, m, JointTarget(m, target), ref, shoulder))
  {
    hide SupportedOrigins, FkMeets, IsRigid, Fk, Trig.Valid, JointTarget, RegularBranch, Unclamped, ShoulderAngle,
         OrientationOf, LocalTargetOf, Sine, Radius;
    BranchExact(t, m, target, side, shoulder, o, local, -1.0);
    BranchExact(t, m, target, side, shoulder, o, local, 1.0);
  }

  /** At a singular wrist, every sum that leaves the elbow solvable reproduces the target. */
  lemma SingularBranchSound(t: Trig, m: Model, target: Pose, side: real, shoulder: real, o: Mat, local: Vec, sum: real)
    requires t.Valid() && SixAxes(m) && SupportedOrigins(m.origins) && IsRigid(m.joint6FromFlange)
    requires FkMeets(t, m, target)
    requires IsRigid(target) && InReach(t, m, target)
    requires IsFrame(t, m, JointTarget(m, target), side, shoulder, o, local) && Sine(t, o) == 0.0
    requires SumFeasible(t, m, local, WristAngle(t, o), sum)
    ensures ExactPair(t, m, target, SingularBranch(t, m, shoulder, o, local, sum))
  {
    hide *;
    FrameHolds(t, m, target, side, shoulder, o, local);
    SingularSound(t, o, sum);
    SingularBranchIs(t, m, shoulder, o, local, sum);
    PreparedWhen(t, m, JointTarget(m, target), shoulder, sum, WristAngle(t, o), SingularLast(t, o, sum));
    PreparedBranch(t, m, target, shoulder, sum, WristAngle(t, o), SingularLast(t, o, sum), local);
  }

  lemma SingularBranchIs(t: Trig, m: Model, shoulder: real, o: Mat, local: Vec, sum: real)
    requires t.Valid() && SixAxes(m) && SupportedOrigins(m.origins)
    ensures SingularBranch(t, m, shoulder, o, local, sum)
         == ElbowCandidates(t, m, shoulder, sum, WristAngle(t, o), SingularLast(t, o, sum), local)
  {
    hide SingularLast, WristAngle, ElbowCandidates;
  }

  // ----- Completeness of the branches --------------------------------------

  lemma LinksHeight(a: Arm, q: Turns)
    ensures Links(a, q).z == a.p3.z + a.p4.z
  {
  }

  /** The shoulder of any joint vector that reaches the target is one of the two the solver tries. */
  lemma SolutionShoulder(t: Trig, m: Model, jt: Pose, u: Turns) returns (side: real)
    requires t.Valid() && SixAxes(m) && SupportedOrigins(m.origins)
    requires AreUnits(u) && Meets(ArmOf(m), u, jt) && Radius(t, m, jt) > 0.0
    ensures (side == 1.0 || side == -1.0) && u.u1 == t.cis(ShoulderAngle(t, m, jt, side))
    ensures Radius(t, m, jt) >= Abs(ShoulderOffset(ArmOf(m)))
  {
    hide Trig.Valid, Links, Remaining, Wrist, Orientation, InPlane, IsUnit, ShoulderAngle, Radius, ShoulderOffset, Sum;
    assert ArmOf(m).p6.y == 0.0;
    LinksHeight(ArmOf(m), u);
    ShoulderIff(ArmOf(m), u, jt);
    side := ShoulderComplete(t, m, jt, u.u1);
  }

  lemma OrientationOfSolution(a: Arm, u: Turns, jt: Pose)
    requires Meets(a, u, jt)
    ensures Wrist(Sum(u), u.u5, u.u6) == Orientation(u.u1, jt.r)
  {
    hide Wrist, Orientation, Links, Remaining;
  }

  /** A solution with known sum, wrist and last angles is one of the two elbow candidates. */
  lemma SolutionElbow(t: Trig, m: Model, jt: Pose, u: Turns, shoulder: real, sum: real, wrist: real, last: real,
                      local: Vec)
    returns (c: Joints)
    requires t.Valid() && SixAxes(m) && SupportedOrigins(m.origins) && AreUnits(u) && Meets(ArmOf(m), u, jt)
    requires u.u1 == t.cis(shoulder) && Sum(u) == t.cis(sum) && u.u5 == t.cis(wrist) && u.u6 == t.cis(last)
    requires local == Local3(t, m, jt, shoulder) && Directed(t, m, u)
    ensures c in ElbowCandidates(t, m, shoulder, sum, wrist, last, local) && TurnsOf(t, c) == u
  {
    hide Trig.Valid, SupportedOrigins, AreUnits, Meets, ArmOf, Sum, Directed, Local3, RemainingOf, ElbowCosine,
         ElbowAngles, TurnsOf;
    ElbowComplete(t, m, jt, u, shoulder, sum, wrist, last);
    var remaining := RemainingOf(t, m, sum, wrist, local);
    var cosine := ElbowCosine(t, m, remaining);
    var right := ElbowAngles(t, m, shoulder, sum, wrist, last, remaining, cosine, 1.0);
    var left := ElbowAngles(t, m, shoulder, sum, wrist, last, remaining, cosine, -1.0);
    assert ElbowCandidates(t, m, shoulder, sum, wrist, last, local) == [left, right];
    c := if u == TurnsOf(t, right) then right else left;
  }

  /** The classes of any regular solution occur among the candidates of its shoulder. */
  lemma RegularShoulder(t: Trig, m: Model, target: Pose, u: Turns, side: real, shoulder: real, o: Mat, local: Vec)
    returns (c: Joints)
    requires t.Valid() && SixAxes(m) && SupportedOrigins(m.origins) && IsRigid(target) && IsRigid(m.joint6FromFlange)
    requires AreUnits(u) && Meets(ArmOf(m), u, JointTarget(m, target)) && u.u1 == t.cis(shoulder) && u.u5.s != 0.0
    requires IsFrame(t, m, JointTarget(m, target), side, shoulder, o, local)
    requires Directed(t, m, u)
    ensures Sine(t, o) == Abs(u.u5.s) && TurnsOf(t, c) == u
    ensures c in RegularBranch(t, m, shoulder, o, local, -1.0) + RegularBranch(t, m, shoulder, o, local, 1.0)
  {
    hide *;
    SixUnits(u);
    FrameHolds(t, m, target, side, shoulder, o, local);
    OrientationOfSolution(ArmOf(m), u, JointTarget(m, target));
    var sign := RegularComplete(t, o, Sum(u), u.u5, u.u6);
    c := SolutionElbow(t, m, JointTarget(m, target), u, shoulder, RegularSum(t, o, sign), SignedWrist(t, o, sign),
                       RegularLast(t, o, sign), local);
    RegularBranchIs(t, m, shoulder, o, local, sign);
  }

  lemma SixUnits(u: Turns)
    requires AreUnits(u)
    ensures IsUnit(u.u1) && IsUnit(u.u5) && IsUnit(u.u6) && IsUnit(Sum(u))
  {
    hide IsUnit, Add;
    AddIsUnit(u.u2, u.u3);
    AddIsUnit(Add(u.u2, u.u3), u.u4);
  }

  /** q puts the flange on the target with a tilted wrist, off the first axis. */
  ghost predicate ReachesTilted(t: Trig, m: Model, target: Pose, q: Joints)
    requires SixAxes(m)
  {
    && Fk(t, m, q) == target && Radius(t, m, JointTarget(m, target)) >= ALGEBRA_TOLERANCE
    && Abs(t.cis(q[4]).s) > ALGEBRA_TOLERANCE
  }

  /**
    Completeness: every joint vector that reaches the target with a tilted wrist is a candidate modulo whole turns,
    unless its arm is folded and points elsewhere than the solver tries.
    */
  lemma CandidatesComplete(t: Trig, m: Model, target: Pose, ref: Joints, q: Joints) returns (c: Joints)
    requires t.Valid() && SixAxes(m) && SupportedOrigins(m.origins) && ChainsAgree(t, m) && IsRigid(m.joint6FromFlange)
    requires ReachesTilted(t, m, target, q) && Directed(t, m, TurnsOf(t, q))
    ensures c in Candidates(t, m, target, ref) && SameClass(t.pi, q, c)
  {
    hide Trig.Valid, SupportedOrigins, ChainsAgree, IsRigid, Fk, ArmOf, Directed, TurnsOf, Radius, JointTarget, Meets,
         AreUnits, ShoulderAngle, OrientationOf, LocalTargetOf, Candidates, RegularBranch, ShoulderOffset, Sine,
         SameClass;
    var jt, u := JointTarget(m, target), TurnsOf(t, q);
    FkIsRigid(t, m, q);
    FkIff(t, m, q, target);
    TurnsAreUnits(t, q);
    TurnsAt(t, q);
    var side := SolutionShoulder(t, m, jt, u);
    var shoulder := ShoulderAngle(t, m, jt, side);
    var o, local := OrientationOf(t, shoulder, jt.r), LocalTargetOf(t, m, shoulder, jt);
    c := RegularShoulder(t, m, target, u, side, shoulder, o, local);
    assert c in ShoulderCandidates(t, m, jt, ref, shoulder);
    CandidatesOfSide(t, m, target, ref, side);
    SameTurns(t, q, c);
  }

  lemma CandidatesOfSide(t: Trig, m: Model, target: Pose, ref: Joints, side: real)
    requires t.Valid() && SixAxes(m) && SupportedOrigins(m.origins) && (side == 1.0 || side == -1.0)
    requires var r := Radius(t, m, JointTarget(m, target));
             r >= ALGEBRA_TOLERANCE && r >= Abs(ShoulderOffset(ArmOf(m)))
    ensures var jt := JointTarget(m, target);
            forall c :: c in ShoulderCandidates(t, m, jt, ref, ShoulderAngle(t, m, jt, side)) ==>
              c in Candidates(t, m, target, ref)
  {
    hide ShoulderCandidates, ShoulderAngle, Radius, JointTarget, ShoulderOffset, ArmOf, SupportedOrigins, Trig.Valid;
  }

  // ----- Reachable singular targets ----------------------------------------

  lemma FlatWrist(t: Trig, o: Mat, s: Unit, w: Unit, l: Unit)
    requires t.Valid() && IsRotation(o) && IsUnit(w) && w.s == 0.0 && o == Wrist(s, w, l)
    ensures Sine(t, o) == 0.0 && t.cis(WristAngle(t, o)) == w
  {
    hide Trig.Valid, IsRotation, Sine, Wrist, WristAngle, IsUnit;
    WristEntries(s, w, l);
    SineLengths(t, o);
    NoSine(Sine(t, o), s.s, s.c, w.s, o.k.x, o.k.y);
    SingularPair(t, o);
  }

  lemma NoSine(n: real, a: real, b: real, k: real, x: real, y: real)
    requires k == 0.0 && x == a * k && y == -(b * k) && n * n == x * x + y * y
    ensures n == 0.0
  {
    if n != 0.0 {
      NonzeroSquare(n, n * n);
    }
  }

  lemma SumOfJoints(t: Trig, q: Joints)
    requires t.Valid()
    ensures t.cis(Preferred(q)) == Sum(TurnsOf(t, q))
  {
    hide Trig.Valid, Add;
    t.CisAdd(q[1], q[2]);
    t.CisAdd(q[1] + q[2], q[3]);
  }

  /** What singular_sums sees at a joint vector, which depends on the classes of q1 and q5 only, is a covered case. */
  predicate CoveredAt(t: Trig, m: Model, jt: Pose, q: Joints, ref: Joints)
    requires t.Valid() && SixAxes(m) && SupportedOrigins(m.origins)
  {
    Covered(t, m, Local3(t, m, jt, q[0]), q[4], Preferred(ref))
  }

  lemma CoveredByClass(t: Trig, m: Model, jt: Pose, q: Joints, ref: Joints, shoulder: real, wrist: real)
    requires t.Valid() && SixAxes(m) && SupportedOrigins(m.origins)
    requires t.cis(shoulder) == t.cis(q[0]) && t.cis(wrist) == t.cis(q[4])
    ensures CoveredAt(t, m, jt, q, ref) <==> Covered(t, m, Local3(t, m, jt, shoulder), wrist, Preferred(ref))
  {
    hide LocalTarget, PlanarNorm, Act, Product, RotYMat, RotZMat, Trig.Valid, SupportedOrigins, ElbowCosine, Preferred;
  }

  /** The sum of a solution is feasible for the elbow. */
  lemma SolutionIsFeasible(t: Trig, m: Model, jt: Pose, u: Turns, shoulder: real, sum: real, wrist: real, local: Vec)
    requires t.Valid() && SixAxes(m) && SupportedOrigins(m.origins) && AreUnits(u) && Meets(ArmOf(m), u, jt)
    requires u.u1 == t.cis(shoulder) && Sum(u) == t.cis(sum) && u.u5 == t.cis(wrist)
    requires local == Local3(t, m, jt, shoulder)
    ensures SumFeasible(t, m, local, wrist, sum)
  {
    hide Trig.Valid, SupportedOrigins, AreUnits, Meets, ArmOf, Sum, Links, Local3, RemainingOf, ElbowCosine;
    RemainderOfSolution(t, m, jt, u, shoulder, sum, wrist);
    var remaining := RemainingOf(t, m, sum, wrist, local);
    ElbowRecovered(t, m, remaining, ElbowCosine(t, m, remaining), u);
  }

  /** The singular candidates of a shoulder on which some solution lies include an exact one. */
  lemma SingularShoulder(t: Trig, m: Model, target: Pose, q: Joints, side: real, shoulder: real, o: Mat, local: Vec,
                         ref: Joints)
    returns (found: real, c: Joints)
    requires t.Valid() && SixAxes(m) && SupportedOrigins(m.origins) && IsRigid(m.joint6FromFlange)
    requires FkMeets(t, m, target)
    requires IsRigid(target) && InReach(t, m, target) && Meets(ArmOf(m), TurnsOf(t, q), JointTarget(m, target))
    requires IsFrame(t, m, JointTarget(m, target), side, shoulder, o, local) && t.cis(shoulder) == t.cis(q[0])
    requires t.cis(q[4]).s == 0.0
    requires CoveredAt(t, m, JointTarget(m, target), q, ref)
    ensures Sine(t, o) == 0.0 && found in Sums(t, m, local, WristAngle(t, o), Preferred(ref))
    ensures c in SingularBranch(t, m, shoulder, o, local, found) && Fk(t, m, c) == target
  {
    hide *;
    var jt, u := JointTarget(m, target), TurnsOf(t, q);
    var sum := Preferred(q);
    TurnsAt(t, q);
    TurnsAreUnits(t, q);
    SixUnits(u);
    SumOfJoints(t, q);
    FrameHolds(t, m, target, side, shoulder, o, local);
    OrientationOfSolution(ArmOf(m), u, jt);
    FlatWrist(t, o, Sum(u), u.u5, u.u6);
    SolutionIsFeasible(t, m, jt, u, shoulder, sum, WristAngle(t, o), local);
    CoveredByClass(t, m, jt, q, ref, shoulder, WristAngle(t, o));
    found := SomeSumIsFeasible(t, m, local, WristAngle(t, o), Preferred(ref), sum);
    SingularBranchSound(t, m, target, side, shoulder, o, local, found);
    c := FirstOfPair(t, m, target, SingularBranch(t, m, shoulder, o, local, found));
  }

  lemma TurnsAt(t: Trig, q: Joints)
    ensures TurnsOf(t, q).u1 == t.cis(q[0]) && TurnsOf(t, q).u5 == t.cis(q[4])
  {
  }

  lemma FirstOfPair(t: Trig, m: Model, target: Pose, branch: seq<Joints>) returns (c: Joints)
    requires SixAxes(m) && ExactPair(t, m, target, branch)
    ensures c in branch && Fk(t, m, c) == target
  {
    hide Fk;
    c := branch[0];
  }

  lemma {:induction false} SingularMember(t: Trig, m: Model, shoulder: real, o: Mat, local: Vec, sums: seq<real>,
                                          sum: real, c: Joints)
    requires t.Valid() && SixAxes(m) && SupportedOrigins(m.origins)
    requires sum in sums && c in SingularBranch(t, m, shoulder, o, local, sum)
    ensures c in SingularCandidates(t, m, shoulder, o, local, sums)
  {
    hide SingularBranch, SupportedOrigins, Trig.Valid;
    if sum != sums[|sums| - 1] {
      SingularMember(t, m, shoulder, o, local, sums[..|sums| - 1], sum, c);
    }
  }

  /** q puts the flange on the target with a straight or folded wrist, off the first axis, in a covered case. */
  ghost predicate ReachesStraight(t: Trig, m: Model, target: Pose, ref: Joints, q: Joints)
    requires t.Valid() && SixAxes(m) && SupportedOrigins(m.origins)
  {
    && Fk(t, m, q) == target && Radius(t, m, JointTarget(m, target)) >= ALGEBRA_TOLERANCE
    && t.cis(q[4]).s == 0.0 && CoveredAt(t, m, JointTarget(m, target), q, ref)
  }

  /** A target some joint vector reaches with a singular wrist has an exact candidate, whatever the reference. */
  lemma SingularTargetHasCandidate(t: Trig, m: Model, target: Pose, ref: Joints, q: Joints) returns (c: Joints)
    requires t.Valid() && SixAxes(m) && SupportedOrigins(m.origins) && ChainsAgree(t, m) && IsRigid(m.joint6FromFlange)
    requires ReachesStraight(t, m, target, ref, q)
    ensures c in Candidates(t, m, target, ref) && Fk(t, m, c) == target
  {
    hide Trig.Valid, SupportedOrigins, ChainsAgree, FkMeets, IsRigid, Fk, ArmOf, Radius, JointTarget, Meets,
         CoveredAt, TurnsOf, AreUnits, ShoulderAngle, OrientationOf, LocalTargetOf, Candidates, SingularBranch,
         ShoulderOffset, Sine, Sums;
    var jt, u := JointTarget(m, target), TurnsOf(t, q);
    FkIsRigid(t, m, q);
    FkIff(t, m, q, target);
    AgreeingChainsMeet(t, m, target);
    TurnsAreUnits(t, q);
    TurnsAt(t, q);
    var side := SolutionShoulder(t, m, jt, u);
    var shoulder := ShoulderAngle(t, m, jt, side);
    var o, local := OrientationOf(t, shoulder, jt.r), LocalTargetOf(t, m, shoulder, jt);
    var found;
    found, c := SingularShoulder(t, m, target, q, side, shoulder, o, local, ref);
    SingularMember(t, m, shoulder, o, local, Sums(t, m, local, WristAngle(t, o), Preferred(ref)), found, c);
    assert c in ShoulderCandidates(t, m, jt, ref, shoulder);
    CandidatesOfSide(t, m, target, ref, side);
  }

  /** A target some joint vector reaches with a tilted wrist has an exact candidate, folded arm or not. */
  lemma TiltedTargetHasCandidate(t: Trig, m: Model, target: Pose, ref: Joints, q: Joints) returns (c: Joints)
    requires t.Valid() && SixAxes(m) && SupportedOrigins(m.origins) && ChainsAgree(t, m) && IsRigid(m.joint6FromFlange)
    requires ReachesTilted(t, m, target, q)
    ensures c in Candidates(t, m, target, ref) && Fk(t, m, c) == target
  {
    hide Trig.Valid, SupportedOrigins, ChainsAgree, FkMeets, IsRigid, Fk, ArmOf, Radius, JointTarget, Meets, TurnsOf,
         AreUnits, ShoulderAngle, OrientationOf, LocalTargetOf, Candidates, RegularBranch, ShoulderOffset, Sine;
    var jt, u := JointTarget(m, target), TurnsOf(t, q);
    FkIsRigid(t, m, q);
    FkIff(t, m, q, target);
    AgreeingChainsMeet(t, m, target);
    TurnsAreUnits(t, q);
    TurnsAt(t, q);
    var side := SolutionShoulder(t, m, jt, u);
    var shoulder := ShoulderAngle(t, m, jt, side);
    var o, local := OrientationOf(t, shoulder, jt.r), LocalTargetOf(t, m, shoulder, jt);
    c := TiltedShoulder(t, m, target, q, side, shoulder, o, local);
    assert c in ShoulderCandidates(t, m, jt, ref, shoulder);
    CandidatesOfSide(t, m, target, ref, side);
  }

  /**
    A tilted solution gives its target an exact candidate exactly when the code does not give up near the first
    axis.
    */
  lemma TiltedTargetIff(t: Trig, m: Model, target: Pose, ref: Joints, q: Joints)
    requires t.Valid() && SixAxes(m) && SupportedOrigins(m.origins) && ChainsAgree(t, m) && IsRigid(m.joint6FromFlange)
    requires Fk(t, m, q) == target && Abs(t.cis(q[4]).s) > ALGEBRA_TOLERANCE
    ensures (exists c :: c in Candidates(t, m, target, ref) && Fk(t, m, c) == target)
       <==> Radius(t, m, JointTarget(m, target)) >= ALGEBRA_TOLERANCE
    ensures Radius(t, m, JointTarget(m, target)) < ALGEBRA_TOLERANCE ==> IkList(t, m, target, ref) == []
  {
    hide Trig.Valid, SupportedOrigins, ChainsAgree, IsRigid, Fk, ArmOf, Radius, JointTarget, ShoulderCandidates,
         ShoulderAngle, ShoulderOffset;
    if Radius(t, m, JointTarget(m, target)) >= ALGEBRA_TOLERANCE {
      var c := TiltedTargetHasCandidate(t, m, target, ref, q);
    }
  }

  lemma TiltedShoulder(t: Trig, m: Model, target: Pose, q: Joints, side: real, shoulder: real, o: Mat, local: Vec)
    returns (c: Joints)
    requires t.Valid() && SixAxes(m) && SupportedOrigins(m.origins) && IsRigid(m.joint6FromFlange)
    requires FkMeets(t, m, target)
    requires IsRigid(target) && InReach(t, m, target) && Meets(ArmOf(m), TurnsOf(t, q), JointTarget(m, target))
    requires IsFrame(t, m, JointTarget(m, target), side, shoulder, o, local) && t.cis(shoulder) == t.cis(q[0])
    requires Abs(t.cis(q[4]).s) > ALGEBRA_TOLERANCE
    ensures Sine(t, o) == Abs(t.cis(q[4]).s) && Fk(t, m, c) == target
    ensures c in RegularBranch(t, m, shoulder, o, local, -1.0) + RegularBranch(t, m, shoulder, o, local, 1.0)
  {
    hide IsFrame, FkMeets, IsRigid, InReach, Meets, TurnsOf, JointTarget, Fk, RegularBranch, SupportedOrigins,
         IsUnit, IsRotation, AreUnits, Sum, Wrist, Orientation, Trig.Valid, SignedWrist, RegularSum, RegularLast,
         SumFeasible;
    var jt, u := JointTarget(m, target), TurnsOf(t, q);
    TurnsAt(t, q);
    TurnsAreUnits(t, q);
    SixUnits(u);
    FrameHolds(t, m, target, side, shoulder, o, local);
    OrientationOfSolution(ArmOf(m), u, jt);
    var sign := RegularComplete(t, o, Sum(u), u.u5, u.u6);
    SolutionIsFeasible(t, m, jt, u, shoulder, RegularSum(t, o, sign), SignedWrist(t, o, sign), local);
    RegularBranchSound(t, m, target, side, shoulder, o, local, sign);
    c := FirstOfPair(t, m, target, RegularBranch(t, m, shoulder, o, local, sign));
  }

  // ----- What compute_ik returns -------------------------------------------

  lemma ExactVerifies(t: Trig, m: Model, target: Pose, q: Joints)
    requires SixAxes(m) && Fk(t, m, q) == target
    ensures Verifies(t, m, target, q)
  {
    hide Fk, SquaredDistance, SquaredNorm, Minus;
    NothingApart(target.p);
    DistanceOfEquals(target.r);
  }

  lemma LiftKeepsClass(pi: real, q: Joints, ref: Joints, lo: Joints, hi: Joints)
    requires pi > 0.0 && AllLiftable(pi, q, lo, hi)
    ensures SameClass(pi, Lifted(pi, q, ref, lo, hi), q)
  {
    hide AllLiftable, Shift, Feasible, LiftedAngle;
    LiftedJoints(pi, q, ref, lo, hi);
    var l := Lifted(pi, q, ref, lo, hi);
    forall idx | 0 <= idx < JOINT_COUNT
      ensures ShiftApart(pi, l[idx], q[idx])
    {
      assert IsJointLift(pi, q[idx], lo[idx], hi[idx], l[idx]);
    }
  }

  /** An exact candidate that can be lifted is listed, up to the duplicate distance. */
  lemma ExactCandidateIsListed(t: Trig, m: Model, target: Pose, ref: Joints, c: Joints)
    requires t.Valid() && SixAxes(m) && SupportedOrigins(m.origins) && FkMeets(t, m, target)
    requires c in Candidates(t, m, target, ref) && Fk(t, m, c) == target
    requires AllLiftable(t.pi, c, m.jointMin, m.jointMax)
    ensures Duplicate(t.pi, c, IkList(t, m, target, ref))
  {
    hide SupportedOrigins, FkMeets, Fk, Candidates, AllLiftable, Lifted, JointsNear, SameClass,
         Verifies, AppendedAll;
    var qs := Candidates(t, m, target, ref);
    var i :| 0 <= i < |qs| && qs[i] == c;
    var l := Lifted(t.pi, c, ref, m.jointMin, m.jointMax);
    LiftKeepsClass(t.pi, c, ref, m.jointMin, m.jointMax);
    ClassMeets(t, m, target, l, c);
    ExactVerifies(t, m, target, l);
    SolutionListInvariant(t, m, target, ref, qs);
    assert Represented(t, m, target, ref, IkList(t, m, target, ref), qs[i]);
    DuplicateOfClass(t.pi, l, c, IkList(t, m, target, ref));
  }

  lemma ClassMeets(t: Trig, m: Model, target: Pose, a: Joints, b: Joints)
    requires t.Valid() && SixAxes(m) && FkMeets(t, m, target) && SameClass(t.pi, a, b)
    ensures Fk(t, m, a) == target <==> Fk(t, m, b) == target
  {
    hide Trig.Valid, Fk, Meets, ArmOf, JointTarget, SameClass, TurnsOf;
    SameTurns(t, a, b);
    assert MeetsTarget(t, m, target, a) <==> MeetsTarget(t, m, target, b);
  }

  lemma DuplicateOfClass(pi: real, a: Joints, b: Joints, solutions: seq<Joints>)
    requires SameClass(pi, a, b) && Duplicate(pi, a, solutions)
    ensures Duplicate(pi, b, solutions)
  {
    hide JointsNear, SameClass;
    var i :| 0 <= i < |solutions| && JointsNear(pi, a, solutions[i], DUPLICATE_TOLERANCE);
    NearOfClass(pi, a, b, solutions[i], DUPLICATE_TOLERANCE);
    assert JointsNear(pi, b, solutions[i], DUPLICATE_TOLERANCE);
  }

  lemma ShiftBack(pi: real, a: real, b: real)
    requires ShiftApart(pi, a, b)
    ensures ShiftApart(pi, b, a)
  {
    hide Shift;
    var k: int :| a == Shift(pi, b, k);
    ShiftShift(pi, b, k, -k);
    assert Shift(pi, b, 0) == b by {
      ShiftNone(pi, b);
    }
    assert b == Shift(pi, a, -k);
  }

  lemma ShiftNone(pi: real, b: real)
    ensures Shift(pi, b, 0) == b
  {
  }

  lemma ClassSymmetric(pi: real, a: Joints, b: Joints)
    requires SameClass(pi, a, b)
    ensures SameClass(pi, b, a)
  {
    hide ShiftApart;
    forall idx | 0 <= idx < JOINT_COUNT
      ensures ShiftApart(pi, b[idx], a[idx])
    {
      ShiftBack(pi, a[idx], b[idx]);
    }
  }

  /** A vector inside the limits makes every vector of its class liftable. */
  lemma ClassIsLiftable(m: Model, pi: real, q: Joints, c: Joints)
    requires WithinLimits(m, q) && SameClass(pi, q, c)
    ensures AllLiftable(pi, c, m.jointMin, m.jointMax)
  {
    hide Shift;
    forall idx | 0 <= idx < JOINT_COUNT
      ensures Liftable(pi, c[idx], m.jointMin[idx], m.jointMax[idx])
    {
      assert ShiftApart(pi, q[idx], c[idx]);
      var k: int :| q[idx] == Shift(pi, c[idx], k);
      assert Feasible(pi, c[idx], m.jointMin[idx], m.jointMax[idx], k);
    }
  }

  /**
    The solver misses nothing: any joint vector inside the limits that reaches the target with a tilted wrist
    has a listed solution within the duplicate distance, unless its arm is folded and points elsewhere than the
    solver tries.
    */
  lemma SolverMissesNothing(t: Trig, m: Model, target: Pose, ref: Joints, q: Joints)
    requires t.Valid() && SixAxes(m) && SupportedOrigins(m.origins) && ChainsAgree(t, m) && IsRigid(m.joint6FromFlange)
    requires ReachesTilted(t, m, target, q) && Directed(t, m, TurnsOf(t, q)) && WithinLimits(m, q)
    ensures Duplicate(t.pi, q, Returned(t, m, target, ref))
  {
    hide FkMeets, ReachesTilted, IkList, Candidates, Fk, SameClass, JointsNear, WithinLimits, AllLiftable,
         SupportedOrigins, ChainsAgree, IsRigid, IsRigidPose, Directed;
    assert Fk(t, m, q) == target by {
      TiltedReaches(t, m, target, q);
    }
    FkIsRigid(t, m, q);
    var c := CandidatesComplete(t, m, target, ref, q);
    FkOfClass(t, m, q, c);
    ClassIsLiftable(m, t.pi, q, c);
    AgreeingChainsMeet(t, m, target);
    ExactCandidateIsListed(t, m, target, ref, c);
    ClassSymmetric(t.pi, q, c);
    DuplicateOfClass(t.pi, c, q, IkList(t, m, target, ref));
  }

  lemma TiltedReaches(t: Trig, m: Model, target: Pose, q: Joints)
    requires SixAxes(m) && ReachesTilted(t, m, target, q)
    ensures Fk(t, m, q) == target
  {
    hide Fk, Radius, Links, PlanarSquare, JointTarget, TurnsOf, ArmOf;
  }

  ghost predicate Reaches(t: Trig, m: Model, target: Pose, ref: Joints, q: Joints)
    requires t.Valid() && SixAxes(m) && SupportedOrigins(m.origins)
  {
    ReachesTilted(t, m, target, q) || ReachesStraight(t, m, target, ref, q)
  }

  /** With a full turn of room in every joint, a target reachable by a tilted or a straight wrist is solved. */
  lemma ReachableTargetIsSolved(t: Trig, m: Model, target: Pose, ref: Joints, q: Joints)
    requires t.Valid() && SixAxes(m) && SupportedOrigins(m.origins) && ChainsAgree(t, m) && IsRigid(m.joint6FromFlange)
    requires Reaches(t, m, target, ref, q) && FullTurnRanges(t.pi, m.jointMin, m.jointMax)
    ensures Returned(t, m, target, ref) != []
  {
    hide FkMeets, ReachesTilted, ReachesStraight, IkList, Candidates, Fk, SameClass, JointsNear, AllLiftable,
         SupportedOrigins, ChainsAgree, IsRigid, IsRigidPose;
    assert Fk(t, m, q) == target by {
      ReachesTarget(t, m, target, ref, q);
    }
    FkIsRigid(t, m, q);
    var c: Joints;
    if ReachesStraight(t, m, target, ref, q) {
      c := SingularTargetHasCandidate(t, m, target, ref, q);
    } else {
      c := TiltedTargetHasCandidate(t, m, target, ref, q);
    }
    FullTurnAlwaysLifts(t.pi, c, m.jointMin, m.jointMax);
    AgreeingChainsMeet(t, m, target);
    ExactCandidateIsListed(t, m, target, ref, c);
    DuplicatesAreListed(t.pi, c, IkList(t, m, target, ref));
  }

  lemma ReachesTarget(t: Trig, m: Model, target: Pose, ref: Joints, q: Joints)
    requires t.Valid() && SixAxes(m) && SupportedOrigins(m.origins) && Reaches(t, m, target, ref, q)
    ensures Fk(t, m, q) == target
  {
    hide Trig.Valid, SupportedOrigins, Fk, Radius, JointTarget, CoveredAt;
  }

  lemma DuplicatesAreListed(pi: real, c: Joints, solutions: seq<Joints>)
    requires Duplicate(pi, c, solutions)
    ensures solutions != []
  {
    hide JointsNear;
  }
}

/**
  Arms folded back exactly onto their shoulder: which of their solutions the solver enumerates, and which it misses.
  */
module FoldedArm {
  import opened Geometry
  import opened Trigonometry
  import opened RobotModel
  import opened ModelExport
  import opened ArmAlgebra
  import opened ShoulderElbow
  import opened JointLifting
  import opened SolutionSet
  import opened ArmModel
  import opened ElbowSolver
  import opened ElbowProof
  import opened SingularWrist
  import opened InverseKinematics
  import opened IkProof

  // ----- When the arm folds ------------------------------------------------

  /** The second link leads back along the first onto the shoulder. */
  predicate Folded(t: Trig, m: Model, u: Turns)
    requires SixAxes(m)
  {
    PlanarSquare(Links(ArmOf(m), u)) == 0.0
  }

  /** An arm folds exactly when its links are equally long and its elbow makes a half turn. */
  lemma FoldedIff(t: Trig, m: Model, u: Turns)
    requires t.Valid() && SixAxes(m) && SupportedOrigins(m.origins) && AreUnits(u)
    ensures Folded(t, m, u) <==>
            && PlanarSquare(ArmOf(m).p3) == PlanarSquare(ArmOf(m).p4)
            && ElbowAngle(u, t.cis(PlanarAngle(t, ArmOf(m).p3)), t.cis(PlanarAngle(t, ArmOf(m).p4))) == HALF
  {
    hide Trig.Valid, SupportedOrigins, ArmOf, PlanarNorm, PlanarAngle, PlanarSquare, Links, ElbowAngle, AreUnits;
    var l1, l2 := PlanarNorm(t, ArmOf(m).p3), PlanarNorm(t, ArmOf(m).p4);
    var el := ElbowAngle(u, t.cis(PlanarAngle(t, ArmOf(m).p3)), t.cis(PlanarAngle(t, ArmOf(m).p4)));
    LinkLengths(t, m);
    PlanarPolar(t, ArmOf(m).p3);
    PlanarPolar(t, ArmOf(m).p4);
    LinksSquare(t, m, u);
    UnitRange(el);
    NullSine(el.c, el.s);
    FoldedScalar(l1, l2, el.c, PlanarSquare(Links(ArmOf(m), u)));
  }

  lemma NullSine(c: real, s: real)
    requires c * c + s * s == 1.0
    ensures c == -1.0 ==> s == 0.0
  {
    if c == -1.0 {
      ZeroSquares(s, 0.0, 0.0);
    }
  }

  lemma FoldedScalar(l1: real, l2: real, c: real, n: real)
    requires l1 > 0.0 && l2 > 0.0 && 2.0 * l1 * l2 > 0.0
    requires -1.0 <= c && n == l1 * l1 + l2 * l2 + 2.0 * l1 * l2 * c
    ensures n == 0.0 <==> l1 * l1 == l2 * l2 && c == -1.0
    ensures n == 0.0 ==> l1 == l2
  {
    SquareSign(l1 - l2);
    assert Sqr(l1 - l2) == l1 * l1 + l2 * l2 - 2.0 * l1 * l2;
    if c > -1.0 {
      PositiveProduct(2.0 * l1 * l2, c + 1.0, 2.0 * l1 * l2 * c + 2.0 * l1 * l2);
    } else if n == 0.0 {
      SameMagnitude(l1, l2);
    } else if l1 * l1 == l2 * l2 {
      EqualLengths(l1, l2);
    }
  }

  lemma SameMagnitude(a: real, b: real)
    requires Sqr(a - b) == 0.0
    ensures a == b
  {
    ZeroSquares(a - b, 0.0, 0.0);
  }

  lemma EqualLengths(a: real, b: real)
    requires a > 0.0 && b > 0.0 && a * a == b * b
    ensures a == b
  {
    assert (a - b) * (a + b) == 0.0;
  }

  lemma DirectedOrFolded(t: Trig, m: Model, u: Turns)
    requires SixAxes(m)
    ensures Directed(t, m, u) <==> !Folded(t, m, u) || u.u2 == t.cis(-PlanarAngle(t, ArmOf(m).p3))
  {
    hide PlanarSquare, Links;
    SquareIsNonNegative(Links(ArmOf(m), u));
  }

  // ----- The folded candidates ---------------------------------------------

  /** A folded candidate always turns its first link onto the x axis of the shoulder. */
  lemma FoldedCandidate(t: Trig, m: Model, shoulder: real, sum: real, wrist: real, last: real, remaining: Vec,
                        sign: real)
    requires t.Valid() && SixAxes(m) && SupportedOrigins(m.origins) && (sign == 1.0 || sign == -1.0)
    ensures var q := ElbowAngles(t, m, shoulder, sum, wrist, last, remaining, ElbowCosine(t, m, remaining), sign);
            Folded(t, m, TurnsOf(t, q)) ==> q[1] == -PlanarAngle(t, ArmOf(m).p3)
  {
    hide Trig.Valid, SupportedOrigins, ArmOf, PlanarNorm, PlanarAngle, PlanarSquare, Links, ElbowAngle, ArmAngle,
         AreUnits, IsUnit, ElbowOf, ArmOfElbow, ElbowCosine, TurnsOf, Sum, Bent;
    var cosine := ElbowCosine(t, m, remaining);
    var q := ElbowAngles(t, m, shoulder, sum, wrist, last, remaining, cosine, sign);
    var l1, l2 := PlanarNorm(t, ArmOf(m).p3), PlanarNorm(t, ArmOf(m).p4);
    var el := t.cis(ElbowOf(t, cosine, sign));
    CandidateTurns(t, m, shoulder, sum, wrist, last, remaining, cosine, sign);
    TurnsAreUnits(t, q);
    LinkLengths(t, m);
    LinksSquare(t, m, TurnsOf(t, q));
    ClampedElbow(t, cosine, sign);
    CosineLaw(t, m, remaining);
    BentSquare(l1, l2, el);
    SquareIsNonNegative(remaining);
    if Folded(t, m, TurnsOf(t, q)) {
      RestScalar(l1, l2, el.c, cosine, PlanarSquare(remaining));
      ArmAtRest(t, l1, l2, remaining, ElbowOf(t, cosine, sign));
    }
  }

  lemma ClampedElbow(t: Trig, cosine: real, sign: real)
    requires t.Valid() && (sign == 1.0 || sign == -1.0)
    ensures IsUnit(t.cis(ElbowOf(t, cosine, sign))) && t.cis(ElbowOf(t, cosine, sign)).c == ClampUnit(cosine)
  {
    hide Trig.Valid, IsUnit;
    ElbowPair(t, ClampUnit(cosine), sign);
  }

  lemma RestScalar(l1: real, l2: real, c: real, cosine: real, n: real)
    requires l1 > 0.0 && l2 > 0.0 && 2.0 * l1 * l2 > 0.0 && c == ClampUnit(cosine)
    requires l1 * l1 + l2 * l2 + 2.0 * l1 * l2 * c == 0.0
    requires n == l1 * l1 + l2 * l2 + 2.0 * l1 * l2 * cosine && n >= 0.0
    ensures n == 0.0
  {
    FoldedScalar(l1, l2, c, 0.0);
    if cosine < -1.0 {
      PositiveProduct(2.0 * l1 * l2, -1.0 - cosine, -(2.0 * l1 * l2 * cosine) - 2.0 * l1 * l2);
    }
  }

  ghost predicate AllDirected(t: Trig, m: Model, qs: seq<Joints>)
    requires SixAxes(m)
  {
    forall i :: 0 <= i < |qs| ==> Directed(t, m, TurnsOf(t, qs[i]))
  }

  lemma ElbowsAreDirected(t: Trig, m: Model, shoulder: real, sum: real, wrist: real, last: real, local: Vec)
    requires t.Valid() && SixAxes(m) && SupportedOrigins(m.origins)
    ensures AllDirected(t, m, ElbowCandidates(t, m, shoulder, sum, wrist, last, local))
  {
    hide Trig.Valid, SupportedOrigins, ArmOf, PlanarAngle, Folded, Directed, ElbowAngles, ElbowCosine, RemainingOf;
    var qs := ElbowCandidates(t, m, shoulder, sum, wrist, last, local);
    var remaining := RemainingOf(t, m, sum, wrist, local);
    forall i | 0 <= i < |qs|
      ensures Directed(t, m, TurnsOf(t, qs[i]))
    {
      FoldedCandidate(t, m, shoulder, sum, wrist, last, remaining, if i == 0 then -1.0 else 1.0);
      DirectedOrFolded(t, m, TurnsOf(t, qs[i]));
    }
  }

  lemma {:induction false} SingularsAreDirected(t: Trig, m: Model, shoulder: real, o: Mat, local: Vec, sums: seq<real>)
    requires t.Valid() && SixAxes(m) && SupportedOrigins(m.origins)
    ensures AllDirected(t, m, SingularCandidates(t, m, shoulder, o, local, sums))
  {
    hide Trig.Valid, SupportedOrigins, Directed, TurnsOf, ElbowCandidates;
    if sums != [] {
      var sum := sums[|sums| - 1];
      SingularsAreDirected(t, m, shoulder, o, local, sums[..|sums| - 1]);
      ElbowsAreDirected(t, m, shoulder, sum, WristAngle(t, o), SingularLast(t, o, sum), local);
    }
  }

  lemma SideIsDirected(t: Trig, m: Model, jt: Pose, ref: Joints, shoulder: real)
    requires t.Valid() && SixAxes(m) && SupportedOrigins(m.origins)
    ensures AllDirected(t, m, ShoulderCandidates(t, m, jt, ref, shoulder))
  {
    hide Trig.Valid, SupportedOrigins, Directed, TurnsOf, ElbowCandidates, SingularCandidates, OrientationOf,
         LocalTargetOf, Sine, RegularSum, SignedWrist, RegularLast, WristAngle, Sums;
    var o, local := OrientationOf(t, shoulder, jt.r), LocalTargetOf(t, m, shoulder, jt);
    SingularsAreDirected(t, m, shoulder, o, local, Sums(t, m, local, WristAngle(t, o), Preferred(ref)));
    ElbowsAreDirected(t, m, shoulder, RegularSum(t, o, -1.0), SignedWrist(t, o, -1.0), RegularLast(t, o, -1.0), local);
    ElbowsAreDirected(t, m, shoulder, RegularSum(t, o, 1.0), SignedWrist(t, o, 1.0), RegularLast(t, o, 1.0), local);
  }

  /** Every candidate, verified or not, is directed. */
  lemma CandidatesAreDirected(t: Trig, m: Model, target: Pose, ref: Joints)
    requires t.Valid() && SixAxes(m) && SupportedOrigins(m.origins)
    ensures AllDirected(t, m, Candidates(t, m, target, ref))
  {
    hide Trig.Valid, SupportedOrigins, Directed, TurnsOf, ShoulderCandidates, ShoulderAngle, Radius, ShoulderOffset,
         ArmOf, JointTarget;
    var jt := JointTarget(m, target);
    if !OutOfReach(t, m, jt) {
      SideIsDirected(t, m, jt, ref, ShoulderAngle(t, m, jt, -1.0));
      SideIsDirected(t, m, jt, ref, ShoulderAngle(t, m, jt, 1.0));
    }
  }

  // ----- What is enumerated ------------------------------------------------

  /** Some candidate of the target is q modulo whole turns. */
  ghost predicate Enumerated(t: Trig, m: Model, target: Pose, ref: Joints, q: Joints)
    requires t.Valid() && SixAxes(m) && SupportedOrigins(m.origins)
  {
    exists c :: c in Candidates(t, m, target, ref) && SameClass(t.pi, q, c)
  }

  /**
    A joint vector that reaches the target with a tilted wrist is enumerated exactly when its arm is not folded, or
    its first link has the one direction the solver tries for a folded arm.
    */
  lemma EnumeratedIff(t: Trig, m: Model, target: Pose, ref: Joints, q: Joints)
    requires t.Valid() && SixAxes(m) && SupportedOrigins(m.origins) && ChainsAgree(t, m) && IsRigid(m.joint6FromFlange)
    requires ReachesTilted(t, m, target, q)
    ensures Enumerated(t, m, target, ref, q)
       <==> !Folded(t, m, TurnsOf(t, q)) || t.cis(q[1]) == t.cis(-PlanarAngle(t, ArmOf(m).p3))
  {
    hide Trig.Valid, SupportedOrigins, ChainsAgree, IsRigid, ReachesTilted, Candidates, SameClass, Folded, Directed,
         PlanarAngle, ArmOf;
    DirectedOrFolded(t, m, TurnsOf(t, q));
    if Directed(t, m, TurnsOf(t, q)) {
      var c := CandidatesComplete(t, m, target, ref, q);
    }
    if c :| c in Candidates(t, m, target, ref) && SameClass(t.pi, q, c) {
      CandidatesAreDirected(t, m, target, ref);
      SameTurns(t, q, c);
    }
  }

  /** Turning the first link of a folded arm by a half turn, and the wrist back, keeps the flange where it is. */
  function Flipped(t: Trig, q: Joints): Joints {
    q[1 := q[1] + t.pi][3 := q[3] - t.pi]
  }

  lemma FlippedMeets(t: Trig, m: Model, jt: Pose, q: Joints)
    requires t.Valid() && SixAxes(m) && SupportedOrigins(m.origins) && Meets(ArmOf(m), TurnsOf(t, q), jt)
    requires Folded(t, m, TurnsOf(t, q))
    ensures Meets(ArmOf(m), TurnsOf(t, Flipped(t, q)), jt) && Folded(t, m, TurnsOf(t, Flipped(t, q)))
  {
    hide Trig.Valid, SupportedOrigins, ArmOf, Links, Sum, Wrist, Orientation, LocalTarget, WristOffset, PlanarSquare;
    var u, v := TurnsOf(t, q), TurnsOf(t, Flipped(t, q));
    SumOfJoints(t, q);
    SumOfJoints(t, Flipped(t, q));
    assert Preferred(Flipped(t, q)) == Preferred(q);
    FlippedFolds(t, m, q);
    LinksHeight(ArmOf(m), u);
    LinksHeight(ArmOf(m), v);
    SquareIsNonNegative(Links(ArmOf(m), u));
    SquareIsNonNegative(Links(ArmOf(m), v));
    VecByComponents(Links(ArmOf(m), u), Links(ArmOf(m), v));
  }

  lemma FlippedFolds(t: Trig, m: Model, q: Joints)
    requires t.Valid() && SixAxes(m) && SupportedOrigins(m.origins) && Folded(t, m, TurnsOf(t, q))
    ensures Folded(t, m, TurnsOf(t, Flipped(t, q)))
  {
    hide Trig.Valid, SupportedOrigins, ArmOf, Folded, PlanarAngle, PlanarSquare, AreUnits;
    TurnsAreUnits(t, q);
    TurnsAreUnits(t, Flipped(t, q));
    FoldedIff(t, m, TurnsOf(t, q));
    FoldedIff(t, m, TurnsOf(t, Flipped(t, q)));
  }

  lemma FlippedTurns(t: Trig, q: Joints)
    requires t.Valid()
    ensures t.cis(Flipped(t, q)[1]) != t.cis(q[1]) && t.cis(Flipped(t, q)[4]) == t.cis(q[4])
  {
    hide Trig.Valid, Add, IsUnit;
    t.CisPi();
    t.CisAdd(q[1], t.pi);
    t.CisUnit(q[1]);
    HalfTurnOpposes(t.cis(q[1]));
    NotBothZero(t.cis(q[1]));
  }

  lemma HalfTurnOpposes(u: Unit)
    ensures Add(u, HALF) == Unit(-u.c, -u.s)
  {
  }

  lemma NotBothZero(u: Unit)
    requires IsUnit(u)
    ensures u.c != 0.0 || u.s != 0.0
  {
    if u.c == 0.0 {
      SquareSign(u.s);
    }
  }

  /** Whenever a folded arm reaches the target with a tilted wrist, the solver misses one that does. */
  lemma FoldedTargetMisses(t: Trig, m: Model, target: Pose, ref: Joints, q: Joints) returns (p: Joints)
    requires t.Valid() && SixAxes(m) && SupportedOrigins(m.origins) && ChainsAgree(t, m) && IsRigid(m.joint6FromFlange)
    requires ReachesTilted(t, m, target, q) && Folded(t, m, TurnsOf(t, q))
    ensures p == q || p == Flipped(t, q)
    ensures ReachesTilted(t, m, target, p) && !Enumerated(t, m, target, ref, p)
  {
    hide Trig.Valid, SupportedOrigins, ChainsAgree, IsRigid, Enumerated, Folded, TurnsOf, Fk, JointTarget, Meets, ArmOf,
         Radius, PlanarAngle, Flipped;
    p := q;
    if t.cis(q[1]) == t.cis(-PlanarAngle(t, ArmOf(m).p3)) {
      p := Flipped(t, q);
      FlippedTurns(t, q);
      FkIff(t, m, q, target);
      FlippedMeets(t, m, JointTarget(m, target), q);
      FkIff(t, m, p, target);
    }
    EnumeratedIff(t, m, target, ref, p);
  }

  // ----- Which arms are affected -------------------------------------------

  /** Links of different lengths never fold. */
  lemma UnequalLinksNeverFold(t: Trig, m: Model, u: Turns)
    requires t.Valid() && SixAxes(m) && SupportedOrigins(m.origins) && AreUnits(u)
    requires PlanarSquare(ArmOf(m).p3) != PlanarSquare(ArmOf(m).p4)
    ensures !Folded(t, m, u) && Directed(t, m, u)
  {
    hide Trig.Valid, SupportedOrigins, ArmOf, PlanarAngle, PlanarSquare, AreUnits, Folded, Directed;
    FoldedIff(t, m, u);
    DirectedOrFolded(t, m, u);
  }

  /** Every joint vector that reaches a target with a tilted wrist is enumerated for it. */
  ghost predicate EnumeratesAll(t: Trig, m: Model, ref: Joints)
    requires t.Valid() && SixAxes(m) && SupportedOrigins(m.origins)
  {
    forall target, q :: ReachesTilted(t, m, target, q) ==> Enumerated(t, m, target, ref, q)
  }

  /** The distance of a corrected target from the first axis is at least the shoulder's offset. */
  lemma RadiusOfSolution(t: Trig, m: Model, q: Joints)
    requires t.Valid() && SixAxes(m) && SupportedOrigins(m.origins) && ChainsAgree(t, m) && IsRigid(m.joint6FromFlange)
    ensures Radius(t, m, JointTarget(m, Fk(t, m, q))) >= Abs(ShoulderOffset(ArmOf(m)))
  {
    hide Trig.Valid, SupportedOrigins, ChainsAgree, IsRigid, Fk, JointTarget, Links, Remaining, Wrist, Orientation,
         RotZ, IsUnit, Corrected, ShoulderOffset, Sum, Add, Neg, TurnsOf, Polar, PlanarNorm, PlanarAngle;
    var target := Fk(t, m, q);
    var jt, u := JointTarget(m, target), TurnsOf(t, q);
    FkIff(t, m, q, target);
    NoLateralOffset(m);
    LinksHeight(ArmOf(m), u);
    ShoulderIff(ArmOf(m), u, jt);
    var v := Corrected(ArmOf(m), jt);
    var f := t.cis(PlanarAngle(t, v));
    TurnsAreUnits(t, q);
    SixUnits(u);
    PlanarPolar(t, v);
    t.CisUnit(PlanarAngle(t, v));
    AddIsUnit(f, f);
    AddIsUnit(u.u1, Neg(f));
    PlaneDistance(v, PlanarNorm(t, v), f, u.u1);
    UnitRange(Add(u.u1, Neg(f)));
    ScaledRange(PlanarNorm(t, v), Add(u.u1, Neg(f)).c);
  }

  lemma NoLateralOffset(m: Model)
    requires SixAxes(m) && SupportedOrigins(m.origins)
    ensures ArmOf(m).p6.y == 0.0
  {
  }

  lemma ScaledRange(k: real, c: real)
    requires k >= 0.0 && -1.0 <= c <= 1.0
    ensures Abs(k * c) <= k
  {
    NonNegative(k, 1.0 - c);
    NonNegative(k, 1.0 + c);
  }

  /** A folded arm with a level wrist joint, for links of equal length. */
  function FoldedJoints(t: Trig, m: Model): Joints
    requires SixAxes(m)
  {
    [0.0, 0.0, t.pi - PlanarAngle(t, ArmOf(m).p4) + PlanarAngle(t, ArmOf(m).p3), 0.0, t.pi / 2.0, 0.0]
  }

  lemma FoldedJointsFold(t: Trig, m: Model)
    requires t.Valid() && SixAxes(m) && SupportedOrigins(m.origins)
    requires PlanarSquare(ArmOf(m).p3) == PlanarSquare(ArmOf(m).p4)
    ensures Folded(t, m, TurnsOf(t, FoldedJoints(t, m))) && t.cis(FoldedJoints(t, m)[4]) == QUARTER
  {
    hide SupportedOrigins, ArmOf, PlanarAngle, PlanarSquare, AreUnits, Folded, Add, Neg, Trig.Valid;
    var q := FoldedJoints(t, m);
    var b1, b2 := PlanarAngle(t, ArmOf(m).p3), PlanarAngle(t, ArmOf(m).p4);
    TurnsAreUnits(t, q);
    t.CisAdd(q[2], b2);
    t.CisSubtract(q[2] + b2, b1);
    assert q[2] + b2 - b1 == t.pi;
    t.CisPi();
    QuarterPair(t);
    FoldedIff(t, m, TurnsOf(t, q));
  }

  /**
    For an arm whose plane keeps clear of the first axis, the solver enumerates every tilted solution of every target
    exactly when the two links have different lengths.
    */
  lemma LinkLengthsDecide(t: Trig, m: Model, ref: Joints)
    requires t.Valid() && SixAxes(m) && SupportedOrigins(m.origins) && ChainsAgree(t, m) && IsRigid(m.joint6FromFlange)
    requires Abs(ShoulderOffset(ArmOf(m))) >= ALGEBRA_TOLERANCE
    ensures EnumeratesAll(t, m, ref) <==> PlanarSquare(ArmOf(m).p3) != PlanarSquare(ArmOf(m).p4)
  {
    hide Trig.Valid, SupportedOrigins, ChainsAgree, IsRigid, Enumerated, Folded, TurnsOf, Fk, JointTarget, ArmOf,
         Radius, PlanarAngle, PlanarSquare, ShoulderOffset, FoldedJoints, AreUnits, Directed, ReachesTilted;
    if PlanarSquare(ArmOf(m).p3) == PlanarSquare(ArmOf(m).p4) {
      var q := FoldedJoints(t, m);
      FoldedJointsFold(t, m);
      RadiusOfSolution(t, m, q);
      TiltedWhen(t, m, q);
      var p := FoldedTargetMisses(t, m, Fk(t, m, q), ref, q);
    } else {
      forall target, q | ReachesTilted(t, m, target, q)
        ensures Enumerated(t, m, target, ref, q)
      {
        TurnsAreUnits(t, q);
        UnequalLinksNeverFold(t, m, TurnsOf(t, q));
        EnumeratedIff(t, m, target, ref, q);
      }
    }
  }

  lemma TiltedWhen(t: Trig, m: Model, q: Joints)
    requires SixAxes(m) && Radius(t, m, JointTarget(m, Fk(t, m, q))) >= ALGEBRA_TOLERANCE && t.cis(q[4]) == QUARTER
    ensures ReachesTilted(t, m, Fk(t, m, q), q)
  {
    hide Fk, JointTarget, Radius;
  }

  /** Whatever the shoulder offset, solutions are missed exactly when some folded arm reaches a target of its own. */
  lemma FoldedArmsDecide(t: Trig, m: Model, ref: Joints)
    requires t.Valid() && SixAxes(m) && SupportedOrigins(m.origins) && ChainsAgree(t, m) && IsRigid(m.joint6FromFlange)
    ensures EnumeratesAll(t, m, ref)
       <==> forall target, q :: ReachesTilted(t, m, target, q) ==> !Folded(t, m, TurnsOf(t, q))
  {
    hide Trig.Valid, SupportedOrigins, ChainsAgree, IsRigid, Enumerated, Folded, TurnsOf, ArmOf, PlanarAngle,
         ReachesTilted;
    forall target, q | ReachesTilted(t, m, target, q)
      ensures !Folded(t, m, TurnsOf(t, q)) ==> Enumerated(t, m, target, ref, q)
      ensures Folded(t, m, TurnsOf(t, q)) ==> !EnumeratesAll(t, m, ref)
    {
      EnumeratedIff(t, m, target, ref, q);
      if Folded(t, m, TurnsOf(t, q)) {
        var p := FoldedTargetMisses(t, m, target, ref, q);
      }
    }
  }

  // ----- One such arm ------------------------------------------------------

  /** Two unit links, a wrist one unit beside the shoulder's plane, and nothing else. */
  function EqualLinks(t: Trig): Model {
    var origins := [Pose(RotYMat(ONE), ZERO), Pose(RotYMat(Neg(QUARTER)), ZERO), Pose(RotYMat(ONE), EX),
                    Pose(RotYMat(ONE), EX), Pose(RotYMat(QUARTER), EZ), Pose(RotYMat(Neg(QUARTER)), ZERO)];
    var zeros: Joints := [0.0, 0.0, 0.0, 0.0, 0.0, 0.0];
    Model(Compose(origins[0], FirstAdapter(t, origins).Frame()), ExportedRows(t, origins), origins, ORIGIN,
          zeros, zeros)
  }

  lemma EqualLinksIsSupported(t: Trig)
    requires t.Valid()
    ensures var m := EqualLinks(t);
            && SixAxes(m) && SupportedOrigins(m.origins) && IsExported(t, m) && m.joint6FromFlange == ORIGIN
            && ArmOf(m).p3 == ArmOf(m).p4 && ShoulderOffset(ArmOf(m)) == -1.0
  {
    hide Trig.Valid, Compose, ExportedRow, RotYMat, FirstAdapter, Adapter.Frame;
    var m := EqualLinks(t);
    forall idx | 0 <= idx < JOINT_COUNT
      ensures HasTwist(m.origins, idx)
    {
    }
  }

  /** The exported model of such an arm: for some target it reaches, the solver misses a solution. */
  lemma EqualLinksMiss(t: Trig, ref: Joints) returns (target: Pose, p: Joints)
    requires t.Valid()
    ensures var m := EqualLinks(t); SixAxes(m) && SupportedOrigins(m.origins) && ChainsAgree(t, m)
    ensures ReachesTilted(t, EqualLinks(t), target, p) && !Enumerated(t, EqualLinks(t), target, ref, p)
  {
    hide Trig.Valid, SupportedOrigins, ChainsAgree, IsRigid, Enumerated, ReachesTilted, EqualLinks, IsExported,
         Expressible, ArmOf, PlanarSquare, ShoulderOffset;
    var m := EqualLinks(t);
    EqualLinksIsSupported(t);
    SupportedIsExpressible(t, m.origins);
    ExportedChainsAgree(t, m);
    OriginIsRigid();
    LinkLengthsDecide(t, m, ref);
    target, p :| ReachesTilted(t, m, target, p) && !Enumerated(t, m, target, ref, p);
  }

  lemma OriginIsRigid()
    ensures IsRigid(ORIGIN)
  {
    hide IsRotation;
    IdentityIsRotation();
  }
}

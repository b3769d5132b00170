/** The elbow step is exact: its candidates close the chain, and no solution is missed. */
module ElbowProof {
  import opened Geometry
  import opened Trigonometry
  import opened RobotModel
  import opened ArmAlgebra
  import opened ShoulderElbow
  import opened ArmModel
  import opened ElbowSolver

  /** The remainder computed with rotation matrices is the arm's remainder. */
  lemma RemainingMatches(t: Trig, m: Model, sum: real, wrist: real, local: Vec)
    requires t.Valid() && SixAxes(m) && SupportedOrigins(m.origins)
    ensures RemainingOf(t, m, sum, wrist, local)
         == Minus(local, WristOffset(ArmOf(m), t.cis(sum), t.cis(wrist)))
  {
    hide Act, RotZ, RotY, RotZMat, RotYMat, Product;
    var p5, p6 := m.origins[4].p, m.origins[5].p;
    var a, b, c := RotZMat(t.cis(sum)), RotYMat(t.cis(t.pi / 2.0)), RotZMat(t.cis(wrist));
    ActRotations(t.cis(sum), p5);
    ActRotations(t.cis(wrist), p6);
    ActProduct(Product(a, b), c, p6);
    ActProduct(a, b, Act(c, p6));
    ActRotations(QUARTER, Act(c, p6));
    TurnIsRotY(Act(c, p6));
    ActRotations(t.cis(sum), TurnY(Act(c, p6)));
    MinusTwice(local, RotZ(t.cis(sum), p5), RotZ(t.cis(sum), TurnY(RotZ(t.cis(wrist), p6))));
  }

  lemma MinusTwice(a: Vec, b: Vec, c: Vec)
    ensures Minus(Minus(a, b), c) == Minus(a, Plus(b, c))
  {
  }

  /** An angle with a given cosine is one of the two arc cosines. */
  lemma AcosBranches(t: Trig, v: real, u: Unit)
    requires t.Valid() && IsUnit(u) && u.c == v
    ensures -1.0 <= v <= 1.0
    ensures u == t.cis(1.0 * t.acos(v)) || u == t.cis(-1.0 * t.acos(v))
  {
    CosineRange(u.c, u.s);
    assert t.AcosLaw(v);
    var w := t.cis(t.acos(v));
    t.CisUnit(t.acos(v));
    t.CisNeg(t.acos(v));
    assert -1.0 * t.acos(v) == -t.acos(v) && 1.0 * t.acos(v) == t.acos(v);
    SameSquare(v, u.s, w.s);
  }

  lemma SameSquare(v: real, a: real, b: real)
    requires v * v + a * a == 1.0 && v * v + b * b == 1.0
    ensures a == b || a == -b
  {
    assert (a - b) * (a + b) == 0.0;
  }

  lemma ElbowPair(t: Trig, cosine: real, sign: real)
    requires t.Valid() && -1.0 <= cosine <= 1.0 && (sign == 1.0 || sign == -1.0)
    ensures IsUnit(t.cis(ElbowOf(t, cosine, sign))) && t.cis(ElbowOf(t, cosine, sign)).c == cosine
  {
    hide Trig.Valid, IsUnit;
    t.CisUnit(ElbowOf(t, cosine, sign));
    t.CisNeg(t.acos(cosine));
    AcosOf(t, cosine);
    assert -1.0 * t.acos(cosine) == -t.acos(cosine) && 1.0 * t.acos(cosine) == t.acos(cosine);
  }

  lemma AcosOf(t: Trig, v: real)
    requires t.Valid() && -1.0 <= v <= 1.0
    ensures t.cis(t.acos(v)).c == v
  {
    assert t.AcosLaw(v);
  }

  /** The joint angles of a candidate, as classes. */
  lemma CandidateTurns(t: Trig, m: Model, shoulder: real, sum: real, wrist: real, last: real,
                       remaining: Vec, cosine: real, sign: real)
    requires t.Valid() && SixAxes(m) && SupportedOrigins(m.origins)
    ensures var l1, l2 := PlanarNorm(t, ArmOf(m).p3), PlanarNorm(t, ArmOf(m).p4);
            var b1, b2 := t.cis(PlanarAngle(t, ArmOf(m).p3)), t.cis(PlanarAngle(t, ArmOf(m).p4));
            var elbow := ElbowOf(t, cosine, sign);
            var arm := ArmOfElbow(t, l1, l2, remaining, elbow);
            var u := TurnsOf(t, ElbowAngles(t, m, shoulder, sum, wrist, last, remaining, cosine, sign));
            && u.u1 == t.cis(shoulder) && u.u5 == t.cis(wrist) && u.u6 == t.cis(last)
            && Sum(u) == t.cis(sum)
            && ArmAngle(u, b1) == t.cis(arm)
            && ElbowAngle(u, b1, b2) == t.cis(elbow)
  {
    hide Add, Neg, SupportedOrigins, Trig.Valid, ArmOfElbow, ElbowOf, PlanarNorm, PlanarAngle;
    var l1, l2 := PlanarNorm(t, ArmOf(m).p3), PlanarNorm(t, ArmOf(m).p4);
    var b1, b2 := PlanarAngle(t, ArmOf(m).p3), PlanarAngle(t, ArmOf(m).p4);
    var elbow := ElbowOf(t, cosine, sign);
    var arm := ArmOfElbow(t, l1, l2, remaining, elbow);
    SumsOfAngles(t, arm, elbow, b1, b2, sum);
  }

  lemma SumsOfAngles(t: Trig, arm: real, elbow: real, b1: real, b2: real, sum: real)
    requires t.Valid()
    ensures var q1, q2 := arm - b1, elbow - b2 + b1;
            && Add(Add(t.cis(q1), t.cis(q2)), t.cis(sum - q1 - q2)) == t.cis(sum)
            && Add(t.cis(q1), t.cis(b1)) == t.cis(arm)
            && Add(Add(t.cis(q2), t.cis(b2)), Neg(t.cis(b1))) == t.cis(elbow)
  {
    hide Add, Neg, Trig.Valid;
    var q1, q2 := arm - b1, elbow - b2 + b1;
    t.CisAdd(q1, q2);
    t.CisAdd(q1 + q2, sum - q1 - q2);
    t.CisAdd(q1, b1);
    t.CisAdd(q2, b2);
    t.CisSubtract(q2 + b2, b1);
    assert q1 + q2 + (sum - q1 - q2) == sum && q1 + b1 == arm && q2 + b2 - b1 == elbow;
  }

  lemma CosineLaw(t: Trig, m: Model, remaining: Vec)
    requires t.Valid() && SixAxes(m) && SupportedOrigins(m.origins)
    ensures var l1, l2 := PlanarNorm(t, ArmOf(m).p3), PlanarNorm(t, ArmOf(m).p4);
            PlanarSquare(remaining) == l1 * l1 + l2 * l2 + 2.0 * l1 * l2 * ElbowCosine(t, m, remaining)
  {
    hide Trig.Valid, SupportedOrigins, PlanarNorm, PlanarSquare;
    LinkLengths(t, m);
    var l1, l2 := PlanarNorm(t, ArmOf(m).p3), PlanarNorm(t, ArmOf(m).p4);
    DivideBack(PlanarSquare(remaining) - l1 * l1 - l2 * l2, 2.0 * l1 * l2);
  }

  lemma DivideBack(a: real, d: real)
    requires d > 0.0
    ensures d * (a / d) == a
  {
  }

  lemma CosineUnique(d: real, a: real, b: real)
    requires d > 0.0 && d * a == d * b
    ensures a == b
  {
    assert d * (a - b) == 0.0;
  }

  /** The bent arm is as long as the remainder exactly when the elbow has the law-of-cosines value. */
  lemma BentSquareIff(t: Trig, m: Model, remaining: Vec, el: Unit)
    requires t.Valid() && SixAxes(m) && SupportedOrigins(m.origins) && IsUnit(el)
    ensures var l1, l2 := PlanarNorm(t, ArmOf(m).p3), PlanarNorm(t, ArmOf(m).p4);
            PlanarSquare(Bent(l1, l2, el)) == PlanarSquare(remaining) <==> el.c == ElbowCosine(t, m, remaining)
  {
    hide Trig.Valid, SupportedOrigins, PlanarNorm, PlanarSquare, ElbowCosine, IsUnit, Bent;
    var l1, l2 := PlanarNorm(t, ArmOf(m).p3), PlanarNorm(t, ArmOf(m).p4);
    LinkLengths(t, m);
    BentSquare(l1, l2, el);
    CosineLaw(t, m, remaining);
    SquaresAgree(l1, l2, el.c, ElbowCosine(t, m, remaining), PlanarSquare(Bent(l1, l2, el)), PlanarSquare(remaining));
  }

  lemma SquaresAgree(l1: real, l2: real, a: real, b: real, p: real, q: real)
    requires 2.0 * l1 * l2 > 0.0
    requires p == l1 * l1 + l2 * l2 + 2.0 * l1 * l2 * a && q == l1 * l1 + l2 * l2 + 2.0 * l1 * l2 * b
    ensures p == q <==> a == b
  {
    if p == q {
      CosineUnique(2.0 * l1 * l2, a, b);
    }
  }

  /** What a solved shoulder and wrist hand to the elbow. */
  ghost predicate Prepared(t: Trig, m: Model, jt: Pose, shoulder: real, sum: real, wrist: real, last: real)
    requires SixAxes(m)
  {
    && Wrist(t.cis(sum), t.cis(wrist), t.cis(last)) == Orientation(t.cis(shoulder), jt.r)
    && InPlane(ArmOf(m), jt, t.cis(shoulder))
  }

  function Local3(t: Trig, m: Model, jt: Pose, shoulder: real): Vec
    requires SixAxes(m)
  {
    LocalTarget(ArmOf(m), t.cis(shoulder), jt.p)
  }

  /** The height check of the elbow holds automatically once the shoulder lies in the arm's plane. */
  lemma HeightHolds(t: Trig, m: Model, jt: Pose, shoulder: real, sum: real, wrist: real, last: real)
    requires t.Valid() && SixAxes(m) && SupportedOrigins(m.origins) && Prepared(t, m, jt, shoulder, sum, wrist, last)
    ensures RemainingOf(t, m, sum, wrist, Local3(t, m, jt, shoulder)).z == ArmOf(m).p3.z + ArmOf(m).p4.z
  {
    hide Wrist, Orientation, InPlane, RemainingOf, WristOffset, LocalTarget, RotYMat;
    var u := Turns(t.cis(shoulder), t.cis(sum), ONE, ONE, t.cis(wrist), t.cis(last));
    assert Sum(u) == t.cis(sum) by {
      hide *;
      SumOfOnes(u, t.cis(sum));
    }
    RemainingMatches(t, m, sum, wrist, Local3(t, m, jt, shoulder));
    ShoulderIff(ArmOf(m), u, jt);
  }

  lemma SumOfOnes(u: Turns, s: Unit)
    requires u.u2 == s && u.u3 == ONE && u.u4 == ONE
    ensures Sum(u) == s
  {
    AddOne(s);
  }

  /** Soundness of one elbow candidate. */
  lemma ElbowSound(t: Trig, m: Model, jt: Pose, shoulder: real, sum: real, wrist: real, last: real, sign: real)
    requires t.Valid() && SixAxes(m) && SupportedOrigins(m.origins) && Prepared(t, m, jt, shoulder, sum, wrist, last)
    requires sign == 1.0 || sign == -1.0
    requires -1.0 <= ElbowCosine(t, m, RemainingOf(t, m, sum, wrist, Local3(t, m, jt, shoulder))) <= 1.0
    ensures var remaining := RemainingOf(t, m, sum, wrist, Local3(t, m, jt, shoulder));
            var q := ElbowAngles(t, m, shoulder, sum, wrist, last, remaining, ElbowCosine(t, m, remaining), sign);
            Meets(ArmOf(m), TurnsOf(t, q), jt)
  {
    hide *;
    var local := Local3(t, m, jt, shoulder);
    var remaining := RemainingOf(t, m, sum, wrist, local);
    var cosine := ElbowCosine(t, m, remaining);
    var u := TurnsOf(t, ElbowAngles(t, m, shoulder, sum, wrist, last, remaining, cosine, sign));
    CandidateTurns(t, m, shoulder, sum, wrist, last, remaining, cosine, sign);
    HeightHolds(t, m, jt, shoulder, sum, wrist, last);
    BentReaches(t, m, remaining, cosine, sign, u);
    RemainingMatches(t, m, sum, wrist, local);
    AssembleMeets(t, m, jt, shoulder, sum, wrist, last, u);
  }

  lemma AssembleMeets(t: Trig, m: Model, jt: Pose, shoulder: real, sum: real, wrist: real, last: real, u: Turns)
    requires SixAxes(m) && Prepared(t, m, jt, shoulder, sum, wrist, last)
    requires u.u1 == t.cis(shoulder) && u.u5 == t.cis(wrist) && u.u6 == t.cis(last) && Sum(u) == t.cis(sum)
    requires Links(ArmOf(m), u)
          == Minus(Local3(t, m, jt, shoulder), WristOffset(ArmOf(m), t.cis(sum), t.cis(wrist)))
    ensures Meets(ArmOf(m), u, jt)
  {
    hide Wrist, Orientation, Links, WristOffset, Sum, LocalTarget, InPlane;
  }

  /** The bent arm, turned by the arm angle, ends on the remainder. */
  lemma BentReaches(t: Trig, m: Model, remaining: Vec, cosine: real, sign: real, u: Turns)
    requires t.Valid() && SixAxes(m) && SupportedOrigins(m.origins) && (sign == 1.0 || sign == -1.0)
    requires cosine == ElbowCosine(t, m, remaining) && -1.0 <= cosine <= 1.0
    requires remaining.z == ArmOf(m).p3.z + ArmOf(m).p4.z
    requires var l1, l2 := PlanarNorm(t, ArmOf(m).p3), PlanarNorm(t, ArmOf(m).p4);
             var b1, b2 := t.cis(PlanarAngle(t, ArmOf(m).p3)), t.cis(PlanarAngle(t, ArmOf(m).p4));
             var elbow := ElbowOf(t, cosine, sign);
             && ArmAngle(u, b1) == t.cis(ArmOfElbow(t, l1, l2, remaining, elbow))
             && ElbowAngle(u, b1, b2) == t.cis(elbow)
    ensures Links(ArmOf(m), u) == remaining
  {
    hide *;
    var p3, p4 := ArmOf(m).p3, ArmOf(m).p4;
    var l1, l2 := PlanarNorm(t, p3), PlanarNorm(t, p4);
    var b1, b2 := t.cis(PlanarAngle(t, p3)), t.cis(PlanarAngle(t, p4));
    var elbow := ElbowOf(t, cosine, sign);
    var el, al := t.cis(elbow), t.cis(ArmOfElbow(t, l1, l2, remaining, elbow));
    PlanarPolar(t, p3);
    PlanarPolar(t, p4);
    t.CisUnit(PlanarAngle(t, p3));
    LinksAreBent(ArmOf(m), u, l1, l2, b1, b2);
    ElbowPair(t, cosine, sign);
    BentSquareIff(t, m, remaining, el);
    ArmPointsAt(t, l1, l2, remaining, elbow);
    VecByComponents(Links(ArmOf(m), u), remaining);
  }

  lemma ArmPointsAt(t: Trig, l1: real, l2: real, remaining: Vec, elbow: real)
    requires t.Valid() && PlanarSquare(Bent(l1, l2, t.cis(elbow))) == PlanarSquare(remaining)
    ensures var w := RotZ(t.cis(ArmOfElbow(t, l1, l2, remaining, elbow)), Bent(l1, l2, t.cis(elbow)));
            w.x == remaining.x && w.y == remaining.y
  {
    hide IsUnit, Add, Neg, RotZ, PlanarSquare, Trig.Valid, Polar;
    var bent := Bent(l1, l2, t.cis(elbow));
    PlanarPolar(t, bent);
    PlanarPolar(t, remaining);
    t.CisUnit(PlanarAngle(t, bent));
    t.CisUnit(PlanarAngle(t, remaining));
    t.CisSubtract(PlanarAngle(t, remaining), PlanarAngle(t, bent));
    DirectionsMeet(remaining, bent, PlanarNorm(t, remaining), t.cis(PlanarAngle(t, remaining)),
                   t.cis(PlanarAngle(t, bent)), t.cis(ArmOfElbow(t, l1, l2, remaining, elbow)));
  }

  /**
    The arm is not folded back onto its shoulder, where any direction of the first link closes the chain, or its first
    link has the direction the solver tries then.
    */
  predicate Directed(t: Trig, m: Model, u: Turns)
    requires SixAxes(m)
  {
    PlanarSquare(Links(ArmOf(m), u)) > 0.0 || u.u2 == t.cis(-PlanarAngle(t, ArmOf(m).p3))
  }

  /** Completeness of the elbow: a directed solution is one of the two candidates. */
  lemma ElbowComplete(t: Trig, m: Model, jt: Pose, u: Turns, shoulder: real, sum: real, wrist: real, last: real)
    requires t.Valid() && SixAxes(m) && SupportedOrigins(m.origins) && AreUnits(u) && Meets(ArmOf(m), u, jt)
    requires u.u1 == t.cis(shoulder) && Sum(u) == t.cis(sum) && u.u5 == t.cis(wrist) && u.u6 == t.cis(last)
    requires Directed(t, m, u)
    ensures var remaining := RemainingOf(t, m, sum, wrist, Local3(t, m, jt, shoulder));
            var cosine := ElbowCosine(t, m, remaining);
            && -1.0 <= cosine <= 1.0 && remaining.z == ArmOf(m).p3.z + ArmOf(m).p4.z
            && (u == TurnsOf(t, ElbowAngles(t, m, shoulder, sum, wrist, last, remaining, cosine, 1.0))
                || u == TurnsOf(t, ElbowAngles(t, m, shoulder, sum, wrist, last, remaining, cosine, -1.0)))
  {
    hide *;
    var remaining := RemainingOf(t, m, sum, wrist, Local3(t, m, jt, shoulder));
    var cosine := ElbowCosine(t, m, remaining);
    RemainderOfSolution(t, m, jt, u, shoulder, sum, wrist);
    ElbowRecovered(t, m, remaining, cosine, u);
    var sign := if t.cis(ElbowOf(t, cosine, 1.0))
                   == ElbowAngle(u, t.cis(PlanarAngle(t, ArmOf(m).p3)), t.cis(PlanarAngle(t, ArmOf(m).p4)))
                then 1.0 else -1.0;
    ArmDirected(t, m, remaining, u, ElbowOf(t, cosine, sign));
    CandidateTurns(t, m, shoulder, sum, wrist, last, remaining, cosine, sign);
    t.CisUnit(PlanarAngle(t, ArmOf(m).p3));
    t.CisUnit(PlanarAngle(t, ArmOf(m).p4));
    TurnsAreUnits(t, ElbowAngles(t, m, shoulder, sum, wrist, last, remaining, cosine, sign));
    TurnsDetermined(u, TurnsOf(t, ElbowAngles(t, m, shoulder, sum, wrist, last, remaining, cosine, sign)),
                    t.cis(PlanarAngle(t, ArmOf(m).p3)), t.cis(PlanarAngle(t, ArmOf(m).p4)));
  }

  lemma ArmDirected(t: Trig, m: Model, remaining: Vec, u: Turns, elbow: real)
    requires t.Valid() && SixAxes(m) && SupportedOrigins(m.origins) && Links(ArmOf(m), u) == remaining
    requires Directed(t, m, u)
    requires var l1, l2 := PlanarNorm(t, ArmOf(m).p3), PlanarNorm(t, ArmOf(m).p4);
             var b1 := t.cis(PlanarAngle(t, ArmOf(m).p3));
             && PlanarSquare(Bent(l1, l2, t.cis(elbow))) == PlanarSquare(remaining)
             && var w := RotZ(ArmAngle(u, b1), Bent(l1, l2, t.cis(elbow))); w.x == remaining.x && w.y == remaining.y
    ensures ArmAngle(u, t.cis(PlanarAngle(t, ArmOf(m).p3)))
         == t.cis(ArmOfElbow(t, PlanarNorm(t, ArmOf(m).p3), PlanarNorm(t, ArmOf(m).p4), remaining, elbow))
  {
    hide Add, Neg, RotZ, PlanarSquare, Trig.Valid, Bent, Links, SupportedOrigins, ArmOfElbow, PlanarNorm, PlanarAngle,
         ArmOf;
    var b1 := PlanarAngle(t, ArmOf(m).p3);
    if PlanarSquare(remaining) > 0.0 {
      ArmRecovered(t, m, remaining, u, elbow);
    } else {
      SquareIsNonNegative(remaining);
      ArmAtRest(t, PlanarNorm(t, ArmOf(m).p3), PlanarNorm(t, ArmOf(m).p4), remaining, elbow);
      t.CisAdd(-b1, b1);
      assert -b1 + b1 == 0.0;
    }
  }

  lemma SquareIsNonNegative(v: Vec)
    ensures PlanarSquare(v) >= 0.0
    ensures PlanarSquare(v) == 0.0 ==> v.x == 0.0 && v.y == 0.0
  {
    SquareSign(v.x);
    SquareSign(v.y);
    assert PlanarSquare(v) == Sqr(v.x) + Sqr(v.y);
    if PlanarSquare(v) == 0.0 {
      ZeroSquares(v.x, v.y, 0.0);
    }
  }

  /** Neither the remainder nor the bent arm has a direction: the solver takes the same one for both. */
  lemma ArmAtRest(t: Trig, l1: real, l2: real, remaining: Vec, elbow: real)
    requires PlanarSquare(remaining) == 0.0 && PlanarSquare(Bent(l1, l2, t.cis(elbow))) == 0.0
    ensures ArmOfElbow(t, l1, l2, remaining, elbow) == 0.0
  {
    hide PlanarSquare, Bent;
    SquareIsNonNegative(remaining);
    SquareIsNonNegative(Bent(l1, l2, t.cis(elbow)));
  }

  /** The planar length of the two links, from the lengths and the interior angle alone. */
  lemma LinksSquare(t: Trig, m: Model, u: Turns)
    requires t.Valid() && SixAxes(m) && SupportedOrigins(m.origins) && AreUnits(u)
    ensures var l1, l2 := PlanarNorm(t, ArmOf(m).p3), PlanarNorm(t, ArmOf(m).p4);
            var el := ElbowAngle(u, t.cis(PlanarAngle(t, ArmOf(m).p3)), t.cis(PlanarAngle(t, ArmOf(m).p4)));
            IsUnit(el) && PlanarSquare(Links(ArmOf(m), u)) == l1 * l1 + l2 * l2 + 2.0 * l1 * l2 * el.c
  {
    UnitsOf(u);
    hide *;
    var a := ArmOf(m);
    var l1, l2 := PlanarNorm(t, a.p3), PlanarNorm(t, a.p4);
    var b1, b2 := t.cis(PlanarAngle(t, a.p3)), t.cis(PlanarAngle(t, a.p4));
    var el := ElbowAngle(u, b1, b2);
    PlanarPolar(t, a.p3);
    PlanarPolar(t, a.p4);
    t.CisUnit(PlanarAngle(t, a.p3));
    t.CisUnit(PlanarAngle(t, a.p4));
    InteriorUnits(u, b1, b2);
    LinksAreBent(a, u, l1, l2, b1, b2);
    TurnKeepsPlanarSquare(ArmAngle(u, b1), Bent(l1, l2, el));
    SamePlanarSquare(RotZ(ArmAngle(u, b1), Bent(l1, l2, el)), Links(a, u));
    BentSquare(l1, l2, el);
  }

  lemma RemainderOfSolution(t: Trig, m: Model, jt: Pose, u: Turns, shoulder: real, sum: real, wrist: real)
    requires t.Valid() && SixAxes(m) && SupportedOrigins(m.origins) && Meets(ArmOf(m), u, jt)
    requires u.u1 == t.cis(shoulder) && Sum(u) == t.cis(sum) && u.u5 == t.cis(wrist)
    ensures Links(ArmOf(m), u) == RemainingOf(t, m, sum, wrist, Local3(t, m, jt, shoulder))
  {
    hide Wrist, Orientation, Links, WristOffset, Sum, LocalTarget, RemainingOf, RotYMat, Trig.Valid;
    RemainingMatches(t, m, sum, wrist, Local3(t, m, jt, shoulder));
  }

  lemma ElbowRecovered(t: Trig, m: Model, remaining: Vec, cosine: real, u: Turns)
    requires t.Valid() && SixAxes(m) && SupportedOrigins(m.origins) && AreUnits(u) && Links(ArmOf(m), u) == remaining
    requires cosine == ElbowCosine(t, m, remaining)
    ensures -1.0 <= cosine <= 1.0 && remaining.z == ArmOf(m).p3.z + ArmOf(m).p4.z
    ensures var l1, l2 := PlanarNorm(t, ArmOf(m).p3), PlanarNorm(t, ArmOf(m).p4);
            var b1, b2 := t.cis(PlanarAngle(t, ArmOf(m).p3)), t.cis(PlanarAngle(t, ArmOf(m).p4));
            var el := ElbowAngle(u, b1, b2);
            && (el == t.cis(ElbowOf(t, cosine, 1.0)) || el == t.cis(ElbowOf(t, cosine, -1.0)))
            && PlanarSquare(Bent(l1, l2, el)) == PlanarSquare(remaining)
            && var w := RotZ(ArmAngle(u, b1), Bent(l1, l2, el)); w.x == remaining.x && w.y == remaining.y
  {
    UnitsOf(u);
    hide *;
    var p3, p4 := ArmOf(m).p3, ArmOf(m).p4;
    var l1, l2 := PlanarNorm(t, p3), PlanarNorm(t, p4);
    var b1, b2 := t.cis(PlanarAngle(t, p3)), t.cis(PlanarAngle(t, p4));
    var al, el := ArmAngle(u, b1), ElbowAngle(u, b1, b2);
    PlanarPolar(t, p3);
    PlanarPolar(t, p4);
    t.CisUnit(PlanarAngle(t, p3));
    t.CisUnit(PlanarAngle(t, p4));
    LinksAreBent(ArmOf(m), u, l1, l2, b1, b2);
    InteriorUnits(u, b1, b2);
    TurnKeepsPlanarSquare(al, Bent(l1, l2, el));
    SamePlanarSquare(RotZ(al, Bent(l1, l2, el)), remaining);
    BentSquareIff(t, m, remaining, el);
    AcosBranches(t, cosine, el);
    ClampedAcos(t, cosine);
  }

  lemma UnitsOf(u: Turns)
    requires AreUnits(u)
    ensures IsUnit(u.u2) && IsUnit(u.u3)
  {
    hide IsUnit;
  }

  lemma InteriorUnits(u: Turns, b1: Unit, b2: Unit)
    requires IsUnit(u.u2) && IsUnit(u.u3) && IsUnit(b1) && IsUnit(b2)
    ensures IsUnit(ArmAngle(u, b1)) && IsUnit(ElbowAngle(u, b1, b2))
  {
    hide IsUnit, Add, Neg;
    AddIsUnit(u.u2, b1);
    AddIsUnit(u.u3, b2);
    AddIsUnit(b1, b1);
    AddIsUnit(Add(u.u3, b2), Neg(b1));
  }

  lemma SamePlanarSquare(v: Vec, w: Vec)
    requires v.x == w.x && v.y == w.y
    ensures PlanarSquare(v) == PlanarSquare(w)
  {
  }

  lemma ClampedAcos(t: Trig, cosine: real)
    requires -1.0 <= cosine <= 1.0
    ensures ElbowOf(t, cosine, 1.0) == 1.0 * t.acos(cosine) && ElbowOf(t, cosine, -1.0) == -1.0 * t.acos(cosine)
  {
  }

  lemma ArmRecovered(t: Trig, m: Model, remaining: Vec, u: Turns, elbow: real)
    requires t.Valid() && SixAxes(m) && SupportedOrigins(m.origins) && PlanarSquare(remaining) > 0.0
    requires var l1, l2 := PlanarNorm(t, ArmOf(m).p3), PlanarNorm(t, ArmOf(m).p4);
             var b1 := t.cis(PlanarAngle(t, ArmOf(m).p3));
             && PlanarSquare(Bent(l1, l2, t.cis(elbow))) == PlanarSquare(remaining)
             && var w := RotZ(ArmAngle(u, b1), Bent(l1, l2, t.cis(elbow))); w.x == remaining.x && w.y == remaining.y
    ensures ArmAngle(u, t.cis(PlanarAngle(t, ArmOf(m).p3)))
         == t.cis(ArmOfElbow(t, PlanarNorm(t, ArmOf(m).p3), PlanarNorm(t, ArmOf(m).p4), remaining, elbow))
  {
    hide IsUnit, Add, Neg, RotZ, PlanarSquare, Trig.Valid, Polar, Bent, ArmAngle, SupportedOrigins;
    var l1, l2 := PlanarNorm(t, ArmOf(m).p3), PlanarNorm(t, ArmOf(m).p4);
    var bent := Bent(l1, l2, t.cis(elbow));
    PlanarPolar(t, bent);
    PlanarPolar(t, remaining);
    t.CisUnit(PlanarAngle(t, bent));
    t.CisSubtract(PlanarAngle(t, remaining), PlanarAngle(t, bent));
    DirectionsUnique(remaining, bent, PlanarNorm(t, remaining), t.cis(PlanarAngle(t, remaining)),
                     t.cis(PlanarAngle(t, bent)), ArmAngle(u, t.cis(PlanarAngle(t, ArmOf(m).p3))));
  }

  /** Shoulder, arm, elbow, sum and wrist angles determine all six joints. */
  lemma TurnsDetermined(u: Turns, v: Turns, b1: Unit, b2: Unit)
    requires AreUnits(u) && AreUnits(v) && IsUnit(b1) && IsUnit(b2)
    requires u.u1 == v.u1 && u.u5 == v.u5 && u.u6 == v.u6 && Sum(u) == Sum(v)
    requires ArmAngle(u, b1) == ArmAngle(v, b1) && ElbowAngle(u, b1, b2) == ElbowAngle(v, b1, b2)
    ensures u == v
  {
    hide Add, Neg, IsUnit;
    AddCancel(u.u2, b1);
    AddCancel(v.u2, b1);
    AddCancel(Add(u.u3, b2), b1);
    AddCancel(Add(v.u3, b2), b1);
    AddCancel(u.u3, b2);
    AddCancel(v.u3, b2);
    var both := Add(u.u2, u.u3);
    AddIsUnit(u.u2, u.u3);
    AddComm(both, u.u4);
    AddComm(both, v.u4);
    AddCancel(u.u4, both);
    AddCancel(v.u4, both);
  }
}

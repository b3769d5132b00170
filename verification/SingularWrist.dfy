/** singular_sums: the free angle q2 + q3 + q4 when the wrist is singular. */
module SingularWrist {
  import opened Geometry
  import opened Trigonometry
  import opened RobotModel
  import opened ShoulderElbow
  import opened JointLifting
  import opened ArmModel
  import opened ElbowSolver
  import opened ElbowProof

  /** The wrist offset before the free angle turns it: p5 + Ry(90) Rz(w) p6. */
  function WristVector(t: Trig, m: Model, wrist: real): Vec
    requires SixAxes(m)
  {
    Plus(m.origins[4].p, TurnedOffset(t, wrist, m.origins[5].p))
  }

  function TurnedOffset(t: Trig, wrist: real, v: Vec): Vec {
    Act(Product(RotYMat(t.cis(t.pi / 2.0)), RotZMat(t.cis(wrist))), v)
  }

  /** Twice the product of the two distances whose angle is free. */
  function Leverage(t: Trig, m: Model, local: Vec, wrist: real): real
    requires SixAxes(m)
  {
    PlanarNorm(t, local) * PlanarNorm(t, WristVector(t, m, wrist))
  }

  /** The bounds between which the cosine of s - phase keeps the elbow solvable. */
  function Bound(t: Trig, m: Model, local: Vec, wrist: real, reach: real): real
    requires SixAxes(m) && Leverage(t, m, local, wrist) > 0.0
  {
    (Sqr(PlanarNorm(t, local)) + Sqr(PlanarNorm(t, WristVector(t, m, wrist))) - Sqr(reach))
    / (2.0 * Leverage(t, m, local, wrist))
  }

  function Lower(t: Trig, m: Model, local: Vec, wrist: real): real
    requires SixAxes(m) && Leverage(t, m, local, wrist) > 0.0
  {
    Bound(t, m, local, wrist, PlanarNorm(t, ArmOf(m).p3) + PlanarNorm(t, ArmOf(m).p4))
  }

  function Upper(t: Trig, m: Model, local: Vec, wrist: real): real
    requires SixAxes(m) && Leverage(t, m, local, wrist) > 0.0
  {
    Bound(t, m, local, wrist, PlanarNorm(t, ArmOf(m).p3) - PlanarNorm(t, ArmOf(m).p4))
  }

  function Phase(t: Trig, m: Model, local: Vec, wrist: real): real
    requires SixAxes(m)
  {
    PlanarAngle(t, local) - PlanarAngle(t, WristVector(t, m, wrist))
  }

  /** The two ends and the middle of the feasible arc on one side of the phase. */
  function ArcSums(phase: real, first: real, end: real, sign: real): seq<real> {
    [phase + sign * first, phase + sign * end, phase + sign * (first + end) / 2.0]
  }

  function Sums(t: Trig, m: Model, local: Vec, wrist: real, preferred: real): seq<real>
    requires SixAxes(m)
  {
    if Leverage(t, m, local, wrist) <= ALGEBRA_TOLERANCE then [preferred, 0.0]
    else
      var lower, upper := Lower(t, m, local, wrist), Upper(t, m, local, wrist);
      if lower > 1.0 + ALGEBRA_TOLERANCE || upper < -1.0 - ALGEBRA_TOLERANCE then []
      else
        var first, end := t.acos(ClampUnit(upper)), t.acos(ClampUnit(lower));
        var phase := Phase(t, m, local, wrist);
        [preferred] + ArcSums(phase, first, end, -1.0) + ArcSums(phase, first, end, 1.0)
  }

  method SingularSums(t: Trig, m: Model, local: Vec, wrist: real, preferred: real) returns (sums: seq<real>)
    requires SixAxes(m)
    ensures sums == Sums(t, m, local, wrist, preferred)
  {
    hide WristVector, PlanarNorm;
    sums := [preferred];
    if Leverage(t, m, local, wrist) <= ALGEBRA_TOLERANCE {
      sums := sums + [0.0];
      return;
    }
    var lower := Lower(t, m, local, wrist);
    var upper := Upper(t, m, local, wrist);
    if lower > 1.0 + ALGEBRA_TOLERANCE || upper < -1.0 - ALGEBRA_TOLERANCE {
      return [];
    }
    var first := t.acos(ClampUnit(upper));
    var end := t.acos(ClampUnit(lower));
    var phase := Phase(t, m, local, wrist);
    for i := 0 to |SIGNS|
      invariant sums == [preferred] + (if i > 0 then ArcSums(phase, first, end, -1.0) else [])
                                    + (if i > 1 then ArcSums(phase, first, end, 1.0) else [])
    {
      sums := sums + [phase + SIGNS[i] * first];
      sums := sums + [phase + SIGNS[i] * end];
      sums := sums + [phase + SIGNS[i] * (first + end) / 2.0];
    }
  }

  // ----- Which sums are feasible -------------------------------------------

  /** The elbow has an exact solution for this sum. */
  predicate SumFeasible(t: Trig, m: Model, local: Vec, wrist: real, sum: real)
    requires t.Valid() && SixAxes(m) && SupportedOrigins(m.origins)
  {
    -1.0 <= ElbowCosine(t, m, RemainingOf(t, m, sum, wrist, local)) <= 1.0
  }

  lemma RemainingTurns(t: Trig, m: Model, local: Vec, wrist: real, sum: real)
    requires t.Valid() && SixAxes(m) && SupportedOrigins(m.origins)
    ensures RemainingOf(t, m, sum, wrist, local) == Minus(local, RotZ(t.cis(sum), WristVector(t, m, wrist)))
  {
    hide Act, RotZ, RotYMat, RotZMat, Product, RemainingOf, RotY;
    var p5, p6 := m.origins[4].p, m.origins[5].p;
    var b, c := RotYMat(t.cis(t.pi / 2.0)), RotZMat(t.cis(wrist));
    RemainingMatches(t, m, sum, wrist, local);
    ActProduct(b, c, p6);
    ActRotations(t.cis(wrist), p6);
    ActRotations(QUARTER, Act(c, p6));
    TurnIsRotY(Act(c, p6));
    RotZPlus(t.cis(sum), p5, TurnY(RotZ(t.cis(wrist), p6)));
  }

  /** The remainder's length depends on the sum only through the cosine of its angle to the phase. */
  lemma RemainderLength(t: Trig, m: Model, local: Vec, wrist: real, sum: real)
    requires t.Valid() && SixAxes(m) && SupportedOrigins(m.origins)
    ensures PlanarSquare(RemainingOf(t, m, sum, wrist, local))
         == Sqr(PlanarNorm(t, local)) + Sqr(PlanarNorm(t, WristVector(t, m, wrist)))
            - 2.0 * Leverage(t, m, local, wrist) * t.cis(sum - Phase(t, m, local, wrist)).c
  {
    hide *;
    var w := WristVector(t, m, wrist);
    var a, b := PlanarAngle(t, local), PlanarAngle(t, w);
    RemainingTurns(t, m, local, wrist, sum);
    TurnedPolar(t, w, sum);
    TurnedPolar(t, local, sum);
    PhaseCosine(t, sum, a, b);
    PhaseOf(t, m, local, wrist);
    DifferenceLength(local, RotZ(t.cis(sum), w), PlanarNorm(t, local), PlanarNorm(t, w),
                     t.cis(a), Add(t.cis(sum), t.cis(b)), Leverage(t, m, local, wrist),
                     t.cis(sum - Phase(t, m, local, wrist)).c);
  }

  lemma TurnedPolar(t: Trig, v: Vec, sum: real)
    requires t.Valid()
    ensures Polar(v, PlanarNorm(t, v), t.cis(PlanarAngle(t, v))) && IsUnit(t.cis(PlanarAngle(t, v)))
    ensures Polar(RotZ(t.cis(sum), v), PlanarNorm(t, v), Add(t.cis(sum), t.cis(PlanarAngle(t, v))))
    ensures IsUnit(Add(t.cis(sum), t.cis(PlanarAngle(t, v))))
  {
    hide *;
    PlanarPolar(t, v);
    TurnPolar(t.cis(sum), v, PlanarNorm(t, v), t.cis(PlanarAngle(t, v)));
    t.CisUnit(sum);
    t.CisUnit(PlanarAngle(t, v));
    AddIsUnit(t.cis(sum), t.cis(PlanarAngle(t, v)));
  }

  lemma PhaseOf(t: Trig, m: Model, local: Vec, wrist: real)
    requires SixAxes(m)
    ensures Phase(t, m, local, wrist) == PlanarAngle(t, local) - PlanarAngle(t, WristVector(t, m, wrist))
    ensures Leverage(t, m, local, wrist) == PlanarNorm(t, local) * PlanarNorm(t, WristVector(t, m, wrist))
  {
    hide PlanarNorm, PlanarAngle, WristVector;
  }

  /** The scalar product of two directions. */
  function Inner(f: Unit, g: Unit): real {
    f.c * g.c + f.s * g.s
  }

  lemma PhaseCosine(t: Trig, sum: real, a: real, b: real)
    requires t.Valid()
    ensures t.cis(sum - (a - b)).c == Inner(t.cis(a), Add(t.cis(sum), t.cis(b)))
  {
    hide Trig.Valid;
    t.CisAdd(sum, b);
    t.CisSubtract(sum + b, a);
    assert sum - (a - b) == sum + b - a;
  }

  /** The law of cosines for a difference of two planar vectors. */
  lemma DifferenceLength(v: Vec, w: Vec, k: real, l: real, f: Unit, g: Unit, p: real, c: real)
    requires IsUnit(f) && IsUnit(g) && Polar(v, k, f) && Polar(w, l, g)
    requires p == k * l && c == Inner(f, g)
    ensures PlanarSquare(Minus(v, w)) == Sqr(k) + Sqr(l) - 2.0 * p * c
  {
    var d := Minus(v, w);
    DifferenceScalar(k, l, f.c, f.s, g.c, g.s, d.x, d.y, p, c);
  }

  lemma DifferenceScalar(k: real, l: real, a: real, b: real, c: real, d: real, x: real, y: real, p: real, e: real)
    requires p == k * l && e == a * c + b * d
    requires a * a + b * b == 1.0 && c * c + d * d == 1.0 && x == k * a - l * c && y == k * b - l * d
    ensures x * x + y * y == k * k + l * l - 2.0 * p * e
  {
    DifferenceExpanded(k, l, a, b, c, d, a * a + b * b, c * c + d * d);
  }

  lemma DifferenceExpanded(k: real, l: real, a: real, b: real, c: real, d: real, n: real, m: real)
    requires n == a * a + b * b && m == c * c + d * d
    ensures (k * a - l * c) * (k * a - l * c) + (k * b - l * d) * (k * b - l * d)
         == k * k * n + l * l * m - 2.0 * (k * l) * (a * c + b * d)
  {
  }

  /** A sum is feasible exactly when the cosine of its angle to the phase lies between the two bounds. */
  lemma FeasibleSumIff(t: Trig, m: Model, local: Vec, wrist: real, sum: real)
    requires t.Valid() && SixAxes(m) && SupportedOrigins(m.origins) && Leverage(t, m, local, wrist) > 0.0
    ensures SumFeasible(t, m, local, wrist, sum) <==>
            Lower(t, m, local, wrist) <= t.cis(sum - Phase(t, m, local, wrist)).c <= Upper(t, m, local, wrist)
  {
    hide Trig.Valid, SupportedOrigins, PlanarNorm, PlanarSquare, ElbowCosine, RemainingOf, Phase, WristVector, Leverage;
    var l1, l2 := PlanarNorm(t, ArmOf(m).p3), PlanarNorm(t, ArmOf(m).p4);
    var remaining := RemainingOf(t, m, sum, wrist, local);
    LinkLengths(t, m);
    CosineLaw(t, m, remaining);
    RemainderLength(t, m, local, wrist, sum);
    ArcScalar(l1, l2, ElbowCosine(t, m, remaining), PlanarNorm(t, local), PlanarNorm(t, WristVector(t, m, wrist)),
              Leverage(t, m, local, wrist), t.cis(sum - Phase(t, m, local, wrist)).c, PlanarSquare(remaining),
              Lower(t, m, local, wrist), Upper(t, m, local, wrist));
  }

  lemma ArcScalar(l1: real, l2: real, e: real, r: real, o: real, p: real, c: real, n: real, lo: real, hi: real)
    requires 2.0 * l1 * l2 > 0.0 && p > 0.0
    requires n == l1 * l1 + l2 * l2 + 2.0 * l1 * l2 * e
    requires n == Sqr(r) + Sqr(o) - 2.0 * p * c
    requires lo == (Sqr(r) + Sqr(o) - Sqr(l1 + l2)) / (2.0 * p)
    requires hi == (Sqr(r) + Sqr(o) - Sqr(l1 - l2)) / (2.0 * p)
    ensures -1.0 <= e <= 1.0 <==> lo <= c <= hi
  {
    DivideBack(Sqr(r) + Sqr(o) - Sqr(l1 + l2), 2.0 * p);
    DivideBack(Sqr(r) + Sqr(o) - Sqr(l1 - l2), 2.0 * p);
    var d := 2.0 * l1 * l2;
    assert Sqr(l1 + l2) == l1 * l1 + l2 * l2 + d && Sqr(l1 - l2) == l1 * l1 + l2 * l2 - d;
    ScaledOrder(d, e, 1.0, 2.0 * p, c, lo);
    ScaledOrder(d, -1.0, e, 2.0 * p, hi, c);
  }

  /** Two linear relations with positive slopes order their arguments oppositely. */
  lemma ScaledOrder(d: real, a: real, b: real, p: real, x: real, y: real)
    requires d > 0.0 && p > 0.0 && d * (b - a) == p * (x - y)
    ensures a <= b <==> y <= x
  {
    ScaledSign(d, b - a);
    ScaledSign(p, x - y);
    assert (b - a) * d == d * (b - a) && (x - y) * p == p * (x - y);
  }

  /** When the distances do not interact, every sum is as feasible as any other. */
  lemma FlatFeasible(t: Trig, m: Model, local: Vec, wrist: real, a: real, b: real)
    requires t.Valid() && SixAxes(m) && SupportedOrigins(m.origins) && Leverage(t, m, local, wrist) == 0.0
    ensures SumFeasible(t, m, local, wrist, a) <==> SumFeasible(t, m, local, wrist, b)
  {
    hide Trig.Valid, SupportedOrigins, PlanarNorm, PlanarSquare, RemainingOf, Phase, WristVector, Leverage;
    LinkLengths(t, m);
    RemainderLength(t, m, local, wrist, a);
    RemainderLength(t, m, local, wrist, b);
  }

  /** `singular_sums` gives up only when no sum is feasible. */
  lemma NoSumsMeansInfeasible(t: Trig, m: Model, local: Vec, wrist: real, preferred: real, sum: real)
    requires t.Valid() && SixAxes(m) && SupportedOrigins(m.origins) && Sums(t, m, local, wrist, preferred) == []
    ensures !SumFeasible(t, m, local, wrist, sum)
  {
    hide Trig.Valid, SupportedOrigins, Phase, WristVector, Leverage, Lower, Upper, SumFeasible;
    var c := t.cis(sum - Phase(t, m, local, wrist));
    FeasibleSumIff(t, m, local, wrist, sum);
    t.CisUnit(sum - Phase(t, m, local, wrist));
    CosineRange(c.c, c.s);
  }

  /** The two distances interact clearly or not at all, or one of the two sums tried in between is feasible. */
  predicate Covered(t: Trig, m: Model, local: Vec, wrist: real, preferred: real)
    requires t.Valid() && SixAxes(m) && SupportedOrigins(m.origins)
  {
    var p := Leverage(t, m, local, wrist);
    || p == 0.0 || p > ALGEBRA_TOLERANCE
    || SumFeasible(t, m, local, wrist, preferred) || SumFeasible(t, m, local, wrist, 0.0)
  }

  /** If any sum is feasible in a covered case, then one of the listed sums is. */
  lemma SomeSumIsFeasible(t: Trig, m: Model, local: Vec, wrist: real, preferred: real, sum: real)
    returns (found: real)
    requires t.Valid() && SixAxes(m) && SupportedOrigins(m.origins) && SumFeasible(t, m, local, wrist, sum)
    requires Covered(t, m, local, wrist, preferred)
    ensures found in Sums(t, m, local, wrist, preferred) && SumFeasible(t, m, local, wrist, found)
  {
    hide Trig.Valid, SupportedOrigins, Phase, WristVector, Leverage, Lower, Upper, SumFeasible, ClampUnit, IsUnit;
    if Leverage(t, m, local, wrist) == 0.0 {
      FlatFeasible(t, m, local, wrist, sum, preferred);
      return preferred;
    }
    if Leverage(t, m, local, wrist) <= ALGEBRA_TOLERANCE {
      return if SumFeasible(t, m, local, wrist, preferred) then preferred else 0.0;
    }
    var phase := Phase(t, m, local, wrist);
    var lower, upper := Lower(t, m, local, wrist), Upper(t, m, local, wrist);
    FeasibleSumIff(t, m, local, wrist, sum);
    t.CisUnit(sum - phase);
    UnitRange(t.cis(sum - phase));
    var first := t.acos(ClampUnit(upper));
    ClampBetween(lower, upper, t.cis(sum - phase).c);
    AcosOf(t, ClampUnit(upper));
    assert phase + 1.0 * first - phase == first;
    FeasibleSumIff(t, m, local, wrist, phase + 1.0 * first);
    var end := t.acos(ClampUnit(lower));
    found := phase + 1.0 * first;
    assert ArcSums(phase, first, end, 1.0)[0] == found;
  }

  /** The covered cases are exactly those in which a feasible sum, when there is one, is listed. */
  lemma FeasibleSumIsListedIff(t: Trig, m: Model, local: Vec, wrist: real, preferred: real, sum: real)
    requires t.Valid() && SixAxes(m) && SupportedOrigins(m.origins) && SumFeasible(t, m, local, wrist, sum)
    ensures (exists s :: s in Sums(t, m, local, wrist, preferred) && SumFeasible(t, m, local, wrist, s))
       <==> Covered(t, m, local, wrist, preferred)
  {
    hide Trig.Valid, SupportedOrigins, Phase, WristVector, Leverage, Lower, Upper, SumFeasible, ClampUnit;
    if Covered(t, m, local, wrist, preferred) {
      var found := SomeSumIsFeasible(t, m, local, wrist, preferred, sum);
    }
  }

  lemma UnitRange(u: Unit)
    requires IsUnit(u)
    ensures -1.0 <= u.c <= 1.0
  {
    CosineRange(u.c, u.s);
  }

  lemma ClampBetween(lower: real, upper: real, c: real)
    requires lower <= c <= upper && -1.0 <= c <= 1.0
    ensures lower <= ClampUnit(upper) <= upper && -1.0 <= ClampUnit(upper) <= 1.0
    ensures lower <= ClampUnit(lower) <= upper && -1.0 <= ClampUnit(lower) <= 1.0
    ensures lower <= 1.0 && upper >= -1.0
  {
  }

  // ----- Where the listed sums lie -----------------------------------------

  /** The length of the remainder, squared: how far the two links have to reach. */
  function ReachAt(t: Trig, m: Model, local: Vec, wrist: real, sum: real): real
    requires SixAxes(m)
  {
    PlanarSquare(RemainingOf(t, m, sum, wrist, local))
  }

  predicate ReachesBetween(t: Trig, m: Model, local: Vec, wrist: real, shortest: real, sum: real, longest: real)
    requires SixAxes(m)
  {
    && ReachAt(t, m, local, wrist, shortest) <= ReachAt(t, m, local, wrist, sum)
    && ReachAt(t, m, local, wrist, sum) <= ReachAt(t, m, local, wrist, longest)
  }

  lemma ReachOrder(t: Trig, m: Model, local: Vec, wrist: real, a: real, b: real)
    requires t.Valid() && SixAxes(m) && SupportedOrigins(m.origins) && Leverage(t, m, local, wrist) > 0.0
    requires var phase := Phase(t, m, local, wrist); t.cis(a - phase).c >= t.cis(b - phase).c
    ensures ReachAt(t, m, local, wrist, a) <= ReachAt(t, m, local, wrist, b)
  {
    hide Trig.Valid, SupportedOrigins, PlanarNorm, PlanarSquare, RemainingOf, Phase, WristVector, Leverage;
    RemainderLength(t, m, local, wrist, a);
    RemainderLength(t, m, local, wrist, b);
    var p, phase := Leverage(t, m, local, wrist), Phase(t, m, local, wrist);
    NonNegative(p, t.cis(a - phase).c - t.cis(b - phase).c);
    assert p * (t.cis(a - phase).c - t.cis(b - phase).c) == p * t.cis(a - phase).c - p * t.cis(b - phase).c;
  }

  /** The two ends of the arc and its middle, in the upper half turn, and their cosines. */
  lemma ArcCosines(t: Trig, lower: real, upper: real)
    requires t.Valid() && -1.0 <= lower <= upper <= 1.0
    ensures var first, end := t.acos(upper), t.acos(lower);
            && t.cis(first).c == upper && t.cis(end).c == lower
            && lower <= t.cis((first + end) / 2.0).c <= upper
  {
    hide Trig.Valid;
    var first, end := t.acos(upper), t.acos(lower);
    UpperAngle(t, upper);
    UpperAngle(t, lower);
    if first > end {
      t.CosineFalls(end, first);
    } else {
      t.CosineFalls(first, (first + end) / 2.0);
      t.CosineFalls((first + end) / 2.0, end);
    }
  }

  lemma UpperAngle(t: Trig, v: real)
    requires t.Valid() && -1.0 <= v <= 1.0
    ensures t.cis(t.acos(v)).c == v && 0.0 <= t.acos(v) <= t.pi
  {
    assert t.AcosLaw(v);
  }

  /** Both sides of the phase have the same cosine. */
  lemma SideCosine(t: Trig, phase: real, a: real, sign: real)
    requires t.Valid() && (sign == 1.0 || sign == -1.0)
    ensures t.cis(phase + sign * a - phase).c == t.cis(a).c
  {
    hide Trig.Valid;
    t.CisNeg(a);
    assert phase + sign * a - phase == if sign == 1.0 then a else -a;
  }

  /**
    With distances that interact, and some feasible sum, seven sums are listed: the preferred one, then on either side
    of the phase the feasible sum of the shortest reach, that of the longest, and a feasible one halfway between.
    */
  lemma ListedSumsSpanTheArc(t: Trig, m: Model, local: Vec, wrist: real, preferred: real, sum: real)
    requires t.Valid() && SixAxes(m) && SupportedOrigins(m.origins) && SumFeasible(t, m, local, wrist, sum)
    requires Leverage(t, m, local, wrist) > ALGEBRA_TOLERANCE
    ensures var s := Sums(t, m, local, wrist, preferred);
            && |s| == 7 && s[0] == preferred
            && (forall i :: 1 <= i < 7 ==> SumFeasible(t, m, local, wrist, s[i]))
            && ReachesBetween(t, m, local, wrist, s[1], sum, s[2])
            && ReachesBetween(t, m, local, wrist, s[4], sum, s[5])
            && s[3] == (s[1] + s[2]) / 2.0 && s[6] == (s[4] + s[5]) / 2.0
            && s[1] + s[4] == s[2] + s[5] == s[3] + s[6] == 2.0 * Phase(t, m, local, wrist)
  {
    hide Trig.Valid, SupportedOrigins, Phase, WristVector, Leverage, Lower, Upper, SumFeasible, ClampUnit, IsUnit,
         ReachAt;
    var phase := Phase(t, m, local, wrist);
    var lower, upper := Lower(t, m, local, wrist), Upper(t, m, local, wrist);
    FeasibleSumIff(t, m, local, wrist, sum);
    t.CisUnit(sum - phase);
    UnitRange(t.cis(sum - phase));
    ClampBetween(lower, upper, t.cis(sum - phase).c);
    var s := Sums(t, m, local, wrist, preferred);
    var lo, hi := ClampUnit(lower), ClampUnit(upper);
    ClampAround(lower, upper, t.cis(sum - phase).c);
    ArcCosines(t, lo, hi);
    forall i | 1 <= i < 7
      ensures SumFeasible(t, m, local, wrist, s[i])
    {
      ListedAngle(t, phase, t.acos(hi), t.acos(lo), s, i);
      FeasibleSumIff(t, m, local, wrist, s[i]);
    }
    ListedAngle(t, phase, t.acos(hi), t.acos(lo), s, 1);
    ListedAngle(t, phase, t.acos(hi), t.acos(lo), s, 2);
    ListedAngle(t, phase, t.acos(hi), t.acos(lo), s, 4);
    ListedAngle(t, phase, t.acos(hi), t.acos(lo), s, 5);
    ReachOrder(t, m, local, wrist, s[1], sum);
    ReachOrder(t, m, local, wrist, sum, s[2]);
    ReachOrder(t, m, local, wrist, s[4], sum);
    ReachOrder(t, m, local, wrist, sum, s[5]);
  }

  lemma ClampAround(lower: real, upper: real, c: real)
    requires lower <= c <= upper && -1.0 <= c <= 1.0
    ensures -1.0 <= ClampUnit(lower) <= c <= ClampUnit(upper) <= 1.0
  {
  }

  lemma ListedAngle(t: Trig, phase: real, first: real, end: real, s: seq<real>, i: nat)
    requires t.Valid() && |s| == 7 && 1 <= i < 7
    requires s[1..] == ArcSums(phase, first, end, -1.0) + ArcSums(phase, first, end, 1.0)
    ensures t.cis(s[i] - phase).c == t.cis(if i == 1 || i == 4 then first else if i == 2 || i == 5 then end
                                           else (first + end) / 2.0).c
  {
    hide Trig.Valid;
    var sign := if i < 4 then -1.0 else 1.0;
    SideCosine(t, phase, first, sign);
    SideCosine(t, phase, end, sign);
    SideCosine(t, phase, (first + end) / 2.0, sign);
    assert s[i] == s[1..][i - 1];
    assert sign * (first + end) / 2.0 == sign * ((first + end) / 2.0);
  }
}

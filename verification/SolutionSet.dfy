/** The verified, duplicate-free solution list, and the choice of the nearest solution. */
module SolutionSet {
  import opened Geometry
  import opened Trigonometry
  import opened RobotModel
  import opened JointLifting
  import opened Options

  const POSITION_TOLERANCE := 0.0000001
  const ROTATION_TOLERANCE := 0.0000001
  const DUPLICATE_TOLERANCE := 0.000001

  /** Both residuals of the forward-kinematics recheck are within tolerance (norms compared by their squares). */
  predicate Verifies(t: Trig, m: Model, target: Pose, q: Joints)
    requires SixAxes(m)
  {
    Close(Fk(t, m, q), target)
  }

  predicate Close(check: Pose, target: Pose) {
    && SquaredNorm(Minus(check.p, target.p)) <= POSITION_TOLERANCE * POSITION_TOLERANCE
    && SquaredDistance(check.r, target.r) <= ROTATION_TOLERANCE * ROTATION_TOLERANCE
  }

  /**
    Passing the recheck means that no entry of position or rotation is off by more than 1e-7; being off by half as
    much in position and a third in rotation is enough.
    */
  lemma CloseBounds(check: Pose, target: Pose)
    ensures Close(check, target) ==>
              && VecWithin(check.p, target.p, 0.0000001) && VecWithin(check.r.i, target.r.i, 0.0000001)
              && VecWithin(check.r.j, target.r.j, 0.0000001) && VecWithin(check.r.k, target.r.k, 0.0000001)
    ensures (&& VecWithin(check.p, target.p, 0.0000001 / 2.0)
             && VecWithin(check.r.i, target.r.i, 0.0000001 / 3.0)
             && VecWithin(check.r.j, target.r.j, 0.0000001 / 3.0)
             && VecWithin(check.r.k, target.r.k, 0.0000001 / 3.0)) ==> Close(check, target)
  {
    hide VecWithin, SquaredNorm;
    NormBounds(check.p, target.p, 0.0000001, 0.0000001 / 2.0);
    NormBounds(check.r.i, target.r.i, 0.0000001, 0.0000001 / 3.0);
    NormBounds(check.r.j, target.r.j, 0.0000001, 0.0000001 / 3.0);
    NormBounds(check.r.k, target.r.k, 0.0000001, 0.0000001 / 3.0);
  }

  /** Square sums and entry bounds. */
  lemma NormBounds(a: Vec, b: Vec, e: real, d: real)
    requires e > 0.0 && d > 0.0
    ensures SquaredNorm(Minus(a, b)) >= 0.0
    ensures SquaredNorm(Minus(a, b)) <= e * e ==> VecWithin(a, b, e)
    ensures VecWithin(a, b, d) ==> SquaredNorm(Minus(a, b)) <= 3.0 * (d * d)
  {
    SquareOrder(a.x - b.x, e);
    SquareOrder(a.y - b.y, e);
    SquareOrder(a.z - b.z, e);
    SquareOrder(a.x - b.x, d);
    SquareOrder(a.y - b.y, d);
    SquareOrder(a.z - b.z, d);
    assert SquaredNorm(Minus(a, b)) == Sqr(a.x - b.x) + Sqr(a.y - b.y) + Sqr(a.z - b.z);
  }

  lemma SquareOrder(x: real, e: real)
    requires e > 0.0
    ensures Sqr(x) >= 0.0 && (Sqr(x) <= e * e <==> -e <= x <= e)
  {
    SquareSign(x);
    if x > e {
      PositiveProduct(x - e, x + e, x * x - e * e);
    } else if x < -e {
      PositiveProduct(-x - e, e - x, x * x - e * e);
    } else {
      NonNegative(e - x, e + x);
      assert (e - x) * (e + x) == e * e - x * x;
    }
  }

  /** The largest wrapped difference of the first n joints. */
  function CircularTo(pi: real, a: Joints, b: Joints, n: nat): real
    requires pi > 0.0 && n <= JOINT_COUNT
  {
    if n == 0 then 0.0 else Max(CircularTo(pi, a, b, n - 1), Abs(Wrapped(pi, a[n - 1] - b[n - 1])))
  }

  function Circular(pi: real, a: Joints, b: Joints): real
    requires pi > 0.0
  {
    CircularTo(pi, a, b, JOINT_COUNT)
  }

  /** The difference of two angles, k whole turns further, is below d. */
  predicate DifferBelow(pi: real, a: real, b: real, d: real, k: int) {
    Abs(Shift(pi, a - b, k)) < d
  }

  /** Two angles less than d apart, whole turns aside. */
  ghost predicate AnglesNear(pi: real, a: real, b: real, d: real) {
    exists k: int :: DifferBelow(pi, a, b, d, k)
  }

  /** Two joint vectors every joint of which is less than d apart, whole turns aside. */
  ghost predicate JointsNear(pi: real, a: Joints, b: Joints, d: real) {
    forall idx :: 0 <= idx < JOINT_COUNT ==> AnglesNear(pi, a[idx], b[idx], d)
  }

  /** The wrapped difference is below d exactly when some whole-turn shift of it is. */
  lemma WrappedBelowIff(pi: real, a: real, b: real, d: real)
    requires pi > 0.0
    ensures Abs(Wrapped(pi, a - b)) < d <==> AnglesNear(pi, a, b, d)
  {
    hide Wrapped, Abs, Shift;
    WrapIsShift(pi, a - b);
    var w: int :| Wrapped(pi, a - b) == Shift(pi, a - b, w);
    assert DifferBelow(pi, a, b, d, w) <==> Abs(Wrapped(pi, a - b)) < d;
    if k: int :| DifferBelow(pi, a, b, d, k) {
      WrapIsNearest(pi, a - b, k);
    }
  }

  lemma {:induction false} CircularBelowIff(pi: real, a: Joints, b: Joints, n: nat, d: real)
    requires pi > 0.0 && d > 0.0 && n <= JOINT_COUNT
    ensures CircularTo(pi, a, b, n) < d <==> forall idx :: 0 <= idx < n ==> AnglesNear(pi, a[idx], b[idx], d)
  {
    hide Wrapped, Abs, AnglesNear;
    if n > 0 {
      CircularBelowIff(pi, a, b, n - 1, d);
      WrappedBelowIff(pi, a[n - 1], b[n - 1], d);
    }
  }

  /** Some listed vector is closer than the duplicate distance in every joint. */
  ghost predicate Duplicate(pi: real, q: Joints, solutions: seq<Joints>) {
    exists i :: 0 <= i < |solutions| && JointsNear(pi, q, solutions[i], DUPLICATE_TOLERANCE)
  }

  /** The list after one candidate: lift, recheck, drop duplicates, append. */
  ghost function Appended(t: Trig, m: Model, target: Pose, ref: Joints, solutions: seq<Joints>, q: Joints): seq<Joints>
    requires t.pi > 0.0 && SixAxes(m)
  {
    if !AllLiftable(t.pi, q, m.jointMin, m.jointMax) then solutions else
    var l := Lifted(t.pi, q, ref, m.jointMin, m.jointMax);
    if !Verifies(t, m, target, l) || Duplicate(t.pi, l, solutions) then solutions else solutions + [l]
  }

  /** The list after a sequence of candidates. */
  ghost function AppendedAll(t: Trig, m: Model, target: Pose, ref: Joints, solutions: seq<Joints>, qs: seq<Joints>)
    : seq<Joints>
    requires t.pi > 0.0 && SixAxes(m)
  {
    if qs == [] then solutions
    else Appended(t, m, target, ref, AppendedAll(t, m, target, ref, solutions, qs[..|qs| - 1]), qs[|qs| - 1])
  }

  class SolutionList {
    var items: seq<Joints>

    constructor ()
      ensures items == []
    {
      items := [];
    }

    /** Lifts a copy of the candidate, rechecks it with the forward kinematics and appends it unless listed. */
    method AppendVerified(t: Trig, m: Model, target: Pose, ref: Joints, candidate: Joints)
      requires t.pi > 0.0 && SixAxes(m)
      modifies this
      ensures items == Appended(t, m, target, ref, old(items), candidate)
    {
      hide Close, Fk, AllLiftable, Lifted, Circular, JointsNear;
      var angles := new real[JOINT_COUNT](i requires 0 <= i < JOINT_COUNT => candidate[i]);
      assert angles[..] == candidate;
      var lifted := LiftToLimits(t.pi, angles, ref, m.jointMin, m.jointMax);
      if !lifted {
        return;
      }
      var q: Joints := angles[..];
      var check := ComputeFk(t, m, q);
      if !Close(check, target) {
        return;
      }
      for i := 0 to |items|
        invariant items == old(items)
        invariant forall j :: 0 <= j < i ==> !JointsNear(t.pi, q, items[j], DUPLICATE_TOLERANCE)
      {
        var distance := CircularDistance(t.pi, q, items[i]);
        if distance < DUPLICATE_TOLERANCE {
          return;
        }
      }
      items := items + [q];
    }
  }

  /** The largest wrapped difference: it is below a bound exactly when every joint is, whole turns aside. */
  method CircularDistance(pi: real, a: Joints, b: Joints) returns (distance: real)
    requires pi > 0.0
    ensures distance == Circular(pi, a, b)
    ensures forall d :: d > 0.0 ==> (distance < d <==> JointsNear(pi, a, b, d))
  {
    hide Wrapped, AnglesNear;
    distance := 0.0;
    for idx := 0 to JOINT_COUNT
      invariant distance == CircularTo(pi, a, b, idx)
    {
      var w := WrapAngle(pi, a[idx] - b[idx]);
      distance := Max(distance, Abs(w));
    }
    forall d | d > 0.0
      ensures distance < d <==> JointsNear(pi, a, b, d)
    {
      CircularBelowIff(pi, a, b, JOINT_COUNT, d);
    }
  }

  // ----- What the list holds after any sequence of candidates --------------

  predicate WithinLimits(m: Model, q: Joints) {
    forall idx :: 0 <= idx < JOINT_COUNT ==>
      m.jointMin[idx] - ALGEBRA_TOLERANCE <= q[idx] <= m.jointMax[idx] + ALGEBRA_TOLERANCE
  }

  ghost predicate Represented(t: Trig, m: Model, target: Pose, ref: Joints, solutions: seq<Joints>, q: Joints)
    requires t.pi > 0.0 && SixAxes(m)
  {
    var l := Lifted(t.pi, q, ref, m.jointMin, m.jointMax);
    AllLiftable(t.pi, q, m.jointMin, m.jointMax) && Verifies(t, m, target, l) ==> Duplicate(t.pi, l, solutions)
  }

  ghost predicate Sound(t: Trig, m: Model, target: Pose, solutions: seq<Joints>)
    requires t.pi > 0.0 && SixAxes(m)
  {
    forall i :: 0 <= i < |solutions| ==> WithinLimits(m, solutions[i]) && Verifies(t, m, target, solutions[i])
  }

  /** Any two listed vectors differ by the duplicate distance or more in some joint, whatever the whole turns. */
  ghost predicate Separated(pi: real, solutions: seq<Joints>) {
    forall i, j :: 0 <= i < j < |solutions| ==> !JointsNear(pi, solutions[j], solutions[i], DUPLICATE_TOLERANCE)
  }

  lemma NearItself(pi: real, q: Joints)
    ensures JointsNear(pi, q, q, DUPLICATE_TOLERANCE)
  {
    forall idx | 0 <= idx < JOINT_COUNT
      ensures AnglesNear(pi, q[idx], q[idx], DUPLICATE_TOLERANCE)
    {
      assert DifferBelow(pi, q[idx], q[idx], DUPLICATE_TOLERANCE, 0);
    }
  }

  lemma LiftWithinLimits(t: Trig, m: Model, ref: Joints, q: Joints)
    requires t.pi > 0.0 && AllLiftable(t.pi, q, m.jointMin, m.jointMax)
    ensures WithinLimits(m, Lifted(t.pi, q, ref, m.jointMin, m.jointMax))
  {
    hide Lifted;
    var l := Lifted(t.pi, q, ref, m.jointMin, m.jointMax);
    LiftedJoints(t.pi, q, ref, m.jointMin, m.jointMax);
    forall idx | 0 <= idx < JOINT_COUNT
      ensures m.jointMin[idx] - ALGEBRA_TOLERANCE <= l[idx] <= m.jointMax[idx] + ALGEBRA_TOLERANCE
    {
      assert IsJointLift(t.pi, q[idx], m.jointMin[idx], m.jointMax[idx], l[idx]);
    }
  }

  /**
    After any sequence of candidates the list holds only vectors inside the limits that pass the recheck,
    pairwise apart, and every candidate that passed has a listed representative.
    */
  lemma {:induction false} SolutionListInvariant(t: Trig, m: Model, target: Pose, ref: Joints, qs: seq<Joints>)
    requires t.pi > 0.0 && SixAxes(m)
    ensures var s := AppendedAll(t, m, target, ref, [], qs);
            && Sound(t, m, target, s)
            && Separated(t.pi, s)
            && forall i :: 0 <= i < |qs| ==> Represented(t, m, target, ref, s, qs[i])
  {
    hide JointsNear, Lifted, AllLiftable, Verifies, WithinLimits;
    if qs != [] {
      var front, q := qs[..|qs| - 1], qs[|qs| - 1];
      SolutionListInvariant(t, m, target, ref, front);
      var before, s := AppendedAll(t, m, target, ref, [], front), AppendedAll(t, m, target, ref, [], qs);
      assert s == Appended(t, m, target, ref, before, q);
      assert before <= s;
      forall i | 0 <= i < |qs|
        ensures Represented(t, m, target, ref, s, qs[i])
      {
        if i < |qs| - 1 {
          assert qs[i] == front[i] && Represented(t, m, target, ref, before, front[i]);
          StillRepresented(t, m, target, ref, before, s, front[i]);
        } else {
          NewlyRepresented(t, m, target, ref, before, q);
        }
      }
      if AllLiftable(t.pi, q, m.jointMin, m.jointMax) {
        LiftWithinLimits(t, m, ref, q);
      }
    }
  }

  lemma StillRepresented(t: Trig, m: Model, target: Pose, ref: Joints, before: seq<Joints>, s: seq<Joints>, q: Joints)
    requires t.pi > 0.0 && SixAxes(m) && before <= s && Represented(t, m, target, ref, before, q)
    ensures Represented(t, m, target, ref, s, q)
  {
    hide JointsNear, Lifted, AllLiftable, Verifies;
    var l := Lifted(t.pi, q, ref, m.jointMin, m.jointMax);
    if AllLiftable(t.pi, q, m.jointMin, m.jointMax) && Verifies(t, m, target, l) {
      var i :| 0 <= i < |before| && JointsNear(t.pi, l, before[i], DUPLICATE_TOLERANCE);
      assert s[i] == before[i];
    }
  }

  lemma NewlyRepresented(t: Trig, m: Model, target: Pose, ref: Joints, before: seq<Joints>, q: Joints)
    requires t.pi > 0.0 && SixAxes(m)
    ensures Represented(t, m, target, ref, Appended(t, m, target, ref, before, q), q)
  {
    hide Lifted, AllLiftable, Verifies, JointsNear;
    var l := Lifted(t.pi, q, ref, m.jointMin, m.jointMax);
    NearItself(t.pi, l);
    var s := Appended(t, m, target, ref, before, q);
    if AllLiftable(t.pi, q, m.jointMin, m.jointMax) && Verifies(t, m, target, l) && !Duplicate(t.pi, l, before) {
      assert s[|before|] == l;
    }
  }

  lemma {:induction false} AppendedAllConcat(t: Trig, m: Model, target: Pose, ref: Joints, s: seq<Joints>,
                                             ps: seq<Joints>, qs: seq<Joints>)
    requires t.pi > 0.0 && SixAxes(m)
    ensures AppendedAll(t, m, target, ref, s, ps + qs)
         == AppendedAll(t, m, target, ref, AppendedAll(t, m, target, ref, s, ps), qs)
  {
    hide Appended;
    if qs == [] {
      assert ps + qs == ps;
    } else {
      var front, q := qs[..|qs| - 1], qs[|qs| - 1];
      AppendedAllConcat(t, m, target, ref, s, ps, front);
      assert (ps + qs)[..|ps + qs| - 1] == ps + front && (ps + qs)[|ps + qs| - 1] == q;
    }
  }

  // ----- Nearness does not see whole turns ---------------------------------

  /** Componentwise equal modulo whole turns. */
  ghost predicate SameClass(pi: real, a: Joints, b: Joints) {
    forall idx :: 0 <= idx < JOINT_COUNT ==> ShiftApart(pi, a[idx], b[idx])
  }

  ghost predicate ShiftApart(pi: real, a: real, b: real) {
    exists k: int :: a == Shift(pi, b, k)
  }

  lemma NearOfClass(pi: real, a: Joints, b: Joints, c: Joints, d: real)
    requires SameClass(pi, a, b) && JointsNear(pi, a, c, d)
    ensures JointsNear(pi, b, c, d)
  {
    hide Abs, Shift, AnglesNear;
    forall idx | 0 <= idx < JOINT_COUNT
      ensures AnglesNear(pi, b[idx], c[idx], d)
    {
      assert ShiftApart(pi, a[idx], b[idx]) && AnglesNear(pi, a[idx], c[idx], d);
      AngleNearOfClass(pi, a[idx], b[idx], c[idx], d);
    }
  }

  lemma AngleNearOfClass(pi: real, a: real, b: real, c: real, d: real)
    requires ShiftApart(pi, a, b) && AnglesNear(pi, a, c, d)
    ensures AnglesNear(pi, b, c, d)
  {
    hide Abs, Shift;
    var j: int :| a == Shift(pi, b, j);
    var k: int :| DifferBelow(pi, a, c, d, k);
    ShiftOfDifference(pi, b, c, j);
    ShiftShift(pi, b - c, j, k);
    assert DifferBelow(pi, b, c, d, j + k);
  }

  lemma ShiftOfDifference(pi: real, a: real, b: real, k: int)
    ensures Shift(pi, a, k) - b == Shift(pi, a - b, k)
  {
  }

  // ----- Nearest solution --------------------------------------------------

  /** The sum of the six squared differences. */
  lemma JointDistanceIs(a: Joints, b: Joints)
    ensures JointDistance(a, b)
         == Sqr(a[0] - b[0]) + Sqr(a[1] - b[1]) + Sqr(a[2] - b[2])
            + Sqr(a[3] - b[3]) + Sqr(a[4] - b[4]) + Sqr(a[5] - b[5])
  {
    hide Sqr;
    var parts := seq(JOINT_COUNT + 1, n requires 0 <= n <= JOINT_COUNT => SquaredDistanceTo(a, b, n));
    assert parts[0] == 0.0 && parts[1] == parts[0] + Sqr(a[0] - b[0]) && parts[2] == parts[1] + Sqr(a[1] - b[1]);
    assert parts[3] == parts[2] + Sqr(a[2] - b[2]) && parts[4] == parts[3] + Sqr(a[3] - b[3]);
    assert parts[5] == parts[4] + Sqr(a[4] - b[4]) && parts[6] == parts[5] + Sqr(a[5] - b[5]);
  }

  method Distance(a: Joints, b: Joints) returns (d: real)
    ensures d == JointDistance(a, b)
  {
    d := 0.0;
    for idx := 0 to JOINT_COUNT
      invariant d == SquaredDistanceTo(a, b, idx)
    {
      d := d + (a[idx] - b[idx]) * (a[idx] - b[idx]);
    }
  }

  /** The i-th solution is the first of least squared distance to the reference. */
  predicate IsNearest(solutions: seq<Joints>, ref: Joints, i: nat) {
    && i < |solutions|
    && (forall j :: 0 <= j < |solutions| ==> JointDistance(solutions[i], ref) <= JointDistance(solutions[j], ref))
    && (forall j :: 0 <= j < i ==> JointDistance(solutions[i], ref) < JointDistance(solutions[j], ref))
  }

  /** The first member of least squared distance to the reference; an empty list is refused. */
  method SelectNearest(solutions: seq<Joints>, ref: Joints) returns (selected: Option<Joints>)
    ensures selected == None <==> solutions == []
    ensures selected.Some? ==> exists i: nat :: IsNearest(solutions, ref, i) && solutions[i] == selected.value
  {
    hide JointDistance;
    selected := None;
    var best := 0.0;
    ghost var at: nat := 0;
    for i := 0 to |solutions|
      invariant selected == None <==> i == 0
      invariant i > 0 ==> IsNearest(solutions[..i], ref, at)
      invariant i > 0 ==> selected == Some(solutions[at]) && best == JointDistance(solutions[at], ref)
    {
      var distance := Distance(solutions[i], ref);
      assert solutions[..i + 1] == solutions[..i] + [solutions[i]];
      if selected == None || distance < best {
        selected, best, at := Some(solutions[i]), distance, i;
      }
    }
    assert solutions[..|solutions|] == solutions;
  }
}

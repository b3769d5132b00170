/** Wrapping angles, and lifting a candidate by whole turns into the joint limits. */
module JointLifting {
  import opened Geometry
  import opened Trigonometry
  import opened RobotModel

  const ALGEBRA_TOLERANCE := 0.0000000001

  // ----- Whole turns -------------------------------------------------------

  /** The angle a, k whole turns further; pi is the half turn. */
  function Shift(pi: real, a: real, k: int): real {
    a + (k as real) * (2.0 * pi)
  }

  lemma ShiftShift(pi: real, a: real, j: int, k: int)
    ensures Shift(pi, Shift(pi, a, j), k) == Shift(pi, a, j + k)
  {
    var m, x, y := 2.0 * pi, j as real, k as real;
    assert (j + k) as real == x + y;
    assert x * m + y * m == (x + y) * m;
  }

  lemma Division(a: real, m: real)
    requires m > 0.0
    ensures (a / m) * m == a
  {
  }

  lemma Multiples(m: real, x: real, y: real)
    requires m > 0.0
    ensures x <= y <==> x * m <= y * m
    ensures x < y <==> x * m < y * m
  {
    ScaledSign(m, y - x);
    assert (y - x) * m == y * m - x * m;
  }

  lemma ScaledSign(m: real, d: real)
    requires m > 0.0
    ensures (d > 0.0 <==> d * m > 0.0) && (d == 0.0 <==> d * m == 0.0)
  {
    if d > 0.0 {
      assert d * m > 0.0;
    } else if d < 0.0 {
      assert (-d) * m > 0.0;
      assert d * m == -((-d) * m);
    }
  }

  // ----- wrap_angle --------------------------------------------------------

  /** The C library's fmod, then at most one turn back. */
  function Wrapped(pi: real, angle: real): real
    requires pi > 0.0
  {
    var a := Fmod(angle, 2.0 * pi);
    var b := if a > pi then a - 2.0 * pi else a;
    if b < -pi then b + 2.0 * pi else b
  }

  /** The branches end in the closed half turn, whole turns away from the given angle. */
  method WrapAngle(pi: real, angle: real) returns (ang: real)
    requires pi > 0.0
    ensures ang == Wrapped(pi, angle)
    ensures -pi <= ang <= pi && exists k: int :: ang == Shift(pi, angle, k)
  {
    WrapIsShift(pi, angle);
    ang := Fmod(angle, 2.0 * pi);
    if ang > pi {
      ang := ang - 2.0 * pi;
    }
    if ang < -pi {
      ang := ang + 2.0 * pi;
    }
  }

  lemma FmodRange(angle: real, m: real)
    requires m > 0.0
    ensures -m < Fmod(angle, m) < m
  {
    var x := angle / m;
    var n := Truncate(x) as real;
    Division(angle, m);
    assert -1.0 < x - n < 1.0;
    WithinOneMultiple(angle, m, x, n);
  }

  lemma WithinOneMultiple(a: real, m: real, x: real, n: real)
    requires m > 0.0 && a == x * m && -1.0 < x - n < 1.0
    ensures -m < a - n * m < m
  {
    ScaledSign(m, x - n + 1.0);
    ScaledSign(m, 1.0 - (x - n));
    assert (x - n + 1.0) * m == x * m - n * m + m;
    assert (1.0 - (x - n)) * m == m - (x * m - n * m);
  }

  /** Wrapping lands in the closed half turn, by whole turns. */
  lemma WrapIsShift(pi: real, angle: real)
    requires pi > 0.0
    ensures -pi <= Wrapped(pi, angle) <= pi
    ensures exists k: int :: Wrapped(pi, angle) == Shift(pi, angle, k)
  {
    var m := 2.0 * pi;
    FmodRange(angle, m);
    var n := Truncate(angle / m);
    var a := Fmod(angle, m);
    assert a == Shift(pi, angle, -n) by {
      NegativeMultiple(n, m);
    }
    var d: int := if a > pi then -1 else if a < -pi then 1 else 0;
    assert Wrapped(pi, angle) == Shift(pi, a, d);
    ShiftShift(pi, angle, -n, d);
    assert Wrapped(pi, angle) == Shift(pi, angle, -n + d);
  }

  lemma NegativeMultiple(n: int, m: real)
    ensures (-n) as real * m == -(n as real * m)
  {
    var x := n as real;
    assert (-n) as real == -x;
  }

  /** The wrapped angle is the smallest in absolute value among all whole-turn shifts. */
  lemma WrapIsNearest(pi: real, angle: real, k: int)
    requires pi > 0.0
    ensures Abs(Wrapped(pi, angle)) <= Abs(Shift(pi, angle, k))
  {
    WrapIsShift(pi, angle);
    var w := Wrapped(pi, angle);
    var j: int :| w == Shift(pi, angle, j);
    ShiftShift(pi, angle, j, k - j);
    OutsideHalfTurn(pi, w, k - j);
  }

  lemma OutsideHalfTurn(pi: real, w: real, d: int)
    requires pi > 0.0 && -pi <= w <= pi
    ensures Abs(w) <= Abs(Shift(pi, w, d))
  {
    if d != 0 {
      OutsideScalar(2.0 * pi, w, d as real, Shift(pi, w, d));
    }
  }

  lemma OutsideScalar(m: real, w: real, x: real, shifted: real)
    requires m > 0.0 && -m <= 2.0 * w <= m && (x >= 1.0 || x <= -1.0) && shifted == w + x * m
    ensures Abs(w) <= Abs(shifted)
  {
    if x >= 1.0 {
      ScaledSign(m, x - 1.0);
      assert (x - 1.0) * m == x * m - m;
    } else {
      ScaledSign(m, -1.0 - x);
      assert (-1.0 - x) * m == -m - x * m;
    }
  }

  // ----- Lifting one joint -------------------------------------------------

  /** k turns bring the angle inside the limits, up to the algebra tolerance. */
  predicate Feasible(pi: real, a: real, lo: real, hi: real, k: int) {
    lo - ALGEBRA_TOLERANCE <= Shift(pi, a, k) <= hi + ALGEBRA_TOLERANCE
  }

  function FirstTurn(pi: real, a: real, lo: real): int
    requires pi > 0.0
  {
    Ceil((lo - a - ALGEBRA_TOLERANCE) / (2.0 * pi))
  }

  function LastTurn(pi: real, a: real, hi: real): int
    requires pi > 0.0
  {
    Floor((hi - a + ALGEBRA_TOLERANCE) / (2.0 * pi))
  }

  lemma FeasibleIff(pi: real, a: real, lo: real, hi: real, k: int)
    requires pi > 0.0
    ensures Feasible(pi, a, lo, hi, k) <==> FirstTurn(pi, a, lo) <= k <= LastTurn(pi, a, hi)
  {
    var m := 2.0 * pi;
    QuotientBounds(lo - a - ALGEBRA_TOLERANCE, m, k as real);
    QuotientBounds(hi - a + ALGEBRA_TOLERANCE, m, k as real);
    RoundedBounds((lo - a - ALGEBRA_TOLERANCE) / m, k);
    RoundedBounds((hi - a + ALGEBRA_TOLERANCE) / m, k);
  }

  lemma QuotientBounds(b: real, m: real, x: real)
    requires m > 0.0
    ensures b / m <= x <==> b <= x * m
    ensures x <= b / m <==> x * m <= b
  {
    Division(b, m);
    Multiples(m, b / m, x);
    Multiples(m, x, b / m);
  }

  lemma RoundedBounds(p: real, k: int)
    ensures p <= k as real <==> Ceil(p) <= k
    ensures k as real <= p <==> k <= Floor(p)
  {
  }

  function Clamp(x: int, lo: int, hi: int): int {
    if x < lo then lo else if x > hi then hi else x
  }

  /** The turns the lift chooses for a wrapped angle: nearest to the reference, inside the feasible range. */
  function ChosenTurns(pi: real, a: real, ref: real, lo: real, hi: real): int
    requires pi > 0.0
  {
    Clamp(Round((ref - a) / (2.0 * pi)), FirstTurn(pi, a, lo), LastTurn(pi, a, hi))
  }

  lemma ChosenIsNearest(pi: real, a: real, ref: real, lo: real, hi: real, k: int)
    requires pi > 0.0 && FirstTurn(pi, a, lo) <= LastTurn(pi, a, hi) && Feasible(pi, a, lo, hi, k)
    ensures Feasible(pi, a, lo, hi, ChosenTurns(pi, a, ref, lo, hi))
    ensures Abs(Shift(pi, a, ChosenTurns(pi, a, ref, lo, hi)) - ref) <= Abs(Shift(pi, a, k) - ref)
  {
    hide FirstTurn, LastTurn, Feasible, Round, Clamp;
    var x := (ref - a) / (2.0 * pi);
    var n := ChosenTurns(pi, a, ref, lo, hi);
    FeasibleIff(pi, a, lo, hi, k);
    FeasibleIff(pi, a, lo, hi, n);
    Division(ref - a, 2.0 * pi);
    ClampNearest(x, FirstTurn(pi, a, lo), LastTurn(pi, a, hi), k);
    NearerTurns(2.0 * pi, a, ref, x, n as real, k as real, Shift(pi, a, n), Shift(pi, a, k));
  }

  /** Rounding and then clamping to a range gives the nearest whole number of the range. */
  lemma ClampNearest(x: real, lo: int, hi: int, k: int)
    requires lo <= k <= hi
    ensures lo <= Clamp(Round(x), lo, hi) <= hi
    ensures Abs(Clamp(Round(x), lo, hi) as real - x) <= Abs(k as real - x)
  {
    hide Round;
    RoundIsNear(x);
    var r := Round(x);
    if r < lo {
      assert lo as real >= r as real + 1.0 && k as real >= lo as real;
    } else if r > hi {
      assert hi as real <= r as real - 1.0 && k as real <= hi as real;
    } else if k > r {
      assert k as real >= r as real + 1.0;
    } else if k < r {
      assert k as real <= r as real - 1.0;
    }
  }

  lemma RoundIsNear(x: real)
    ensures -0.5 <= Round(x) as real - x <= 0.5
  {
    if x < 0.0 {
      var n := (-x + 0.5).Floor;
      assert (-n) as real == -(n as real);
    }
  }

  lemma NearerTurns(m: real, a: real, ref: real, x: real, n: real, k: real, an: real, ak: real)
    requires m > 0.0 && x * m == ref - a && Abs(n - x) <= Abs(k - x)
    requires an == a + n * m && ak == a + k * m
    ensures Abs(an - ref) <= Abs(ak - ref)
  {
    hide Abs;
    ScaledDistance(m, n, x, an - ref);
    ScaledDistance(m, k, x, ak - ref);
    var p, q := Abs(n - x), Abs(k - x);
    Multiples(m, p, q);
  }

  lemma ScaledDistance(m: real, n: real, x: real, d: real)
    requires m > 0.0 && d == n * m - x * m
    ensures Abs(d) == Abs(n - x) * m
  {
    ScaledSign(m, n - x);
    assert (n - x) * m == n * m - x * m;
    assert (-(n - x)) * m == -((n - x) * m);
  }

  /** Some whole-turn shift of the joint lies inside its limits. */
  ghost predicate Liftable(pi: real, a: real, lo: real, hi: real) {
    exists k: int :: Feasible(pi, a, lo, hi, k)
  }

  function LiftedAngle(pi: real, a: real, ref: real, lo: real, hi: real): real
    requires pi > 0.0
  {
    var w := Wrapped(pi, a);
    Shift(pi, w, ChosenTurns(pi, w, ref, lo, hi))
  }

  predicate HasRoom(pi: real, a: real, lo: real, hi: real)
    requires pi > 0.0
  {
    FirstTurn(pi, Wrapped(pi, a), lo) <= LastTurn(pi, Wrapped(pi, a), hi)
  }

  /** What lifting one joint means: decidable, congruent, inside the limits and nearest to the reference. */
  lemma LiftOneJoint(pi: real, a: real, ref: real, lo: real, hi: real)
    requires pi > 0.0
    ensures HasRoom(pi, a, lo, hi) <==> Liftable(pi, a, lo, hi)
    ensures HasRoom(pi, a, lo, hi) ==>
              var b := LiftedAngle(pi, a, ref, lo, hi);
              && (exists k: int :: b == Shift(pi, a, k))
              && lo - ALGEBRA_TOLERANCE <= b <= hi + ALGEBRA_TOLERANCE
              && forall k: int :: Feasible(pi, a, lo, hi, k) ==> Abs(b - ref) <= Abs(Shift(pi, a, k) - ref)
  {
    WrapIsShift(pi, a);
    var w := Wrapped(pi, a);
    var j: int :| w == Shift(pi, a, j);
    if Liftable(pi, a, lo, hi) {
      var k: int :| Feasible(pi, a, lo, hi, k);
      ShiftShift(pi, a, j, k - j);
      FeasibleIff(pi, w, lo, hi, k - j);
    }
    if HasRoom(pi, a, lo, hi) {
      var first := FirstTurn(pi, w, lo);
      FeasibleIff(pi, w, lo, hi, first);
      ShiftShift(pi, a, j, first);
      assert Feasible(pi, a, lo, hi, j + first);
      var n := ChosenTurns(pi, w, ref, lo, hi);
      ChosenIsNearest(pi, w, ref, lo, hi, first);
      ShiftShift(pi, a, j, n);
      assert LiftedAngle(pi, a, ref, lo, hi) == Shift(pi, a, j + n);
      forall k: int | Feasible(pi, a, lo, hi, k)
        ensures Abs(Shift(pi, w, n) - ref) <= Abs(Shift(pi, a, k) - ref)
      {
        ShiftShift(pi, a, j, k - j);
        ChosenIsNearest(pi, w, ref, lo, hi, k - j);
      }
    }
  }

  // ----- Lifting six joints in place ---------------------------------------

  ghost predicate AllLiftable(pi: real, q: Joints, lo: Joints, hi: Joints) {
    forall idx :: 0 <= idx < JOINT_COUNT ==> Liftable(pi, q[idx], lo[idx], hi[idx])
  }

  function Lifted(pi: real, q: Joints, ref: Joints, lo: Joints, hi: Joints): (r: Joints)
    requires pi > 0.0
  {
    seq(JOINT_COUNT, idx requires 0 <= idx < JOINT_COUNT => LiftedAngle(pi, q[idx], ref[idx], lo[idx], hi[idx]))
  }

  /**
    Overwrites the angles joint by joint. It fails exactly when some joint has no whole-turn shift inside
    its limits; the joints before the first such joint have then been lifted already.
    */
  method LiftToLimits(pi: real, angles: array<real>, ref: Joints, lo: Joints, hi: Joints) returns (ok: bool)
    requires pi > 0.0 && angles.Length == JOINT_COUNT
    modifies angles
    ensures ok <==> AllLiftable(pi, old(angles[..]), lo, hi)
    ensures ok ==> angles[..] == Lifted(pi, old(angles[..]), ref, lo, hi)
    ensures !ok ==> exists n: nat :: n < JOINT_COUNT && !Liftable(pi, old(angles[n]), lo[n], hi[n])
                      && angles[..] == Lifted(pi, old(angles[..]), ref, lo, hi)[..n] + old(angles[..])[n..]
  {
    hide Liftable, LiftedAngle, Wrapped, FirstTurn, LastTurn, Round, Feasible, Clamp, Shift;
    ghost var was := angles[..];
    for idx := 0 to JOINT_COUNT
      invariant forall k :: 0 <= k < idx ==> Liftable(pi, was[k], lo[k], hi[k])
      invariant forall k :: 0 <= k < idx ==> angles[k] == LiftedAngle(pi, was[k], ref[k], lo[k], hi[k])
      invariant forall k :: idx <= k < JOINT_COUNT ==> angles[k] == was[k]
    {
      LiftOneJoint(pi, was[idx], ref[idx], lo[idx], hi[idx]);
      LiftSteps(pi, was[idx], ref[idx], lo[idx], hi[idx]);
      var angle := WrapAngle(pi, angles[idx]);
      var first := FirstTurn(pi, angle, lo[idx]);
      var last := LastTurn(pi, angle, hi[idx]);
      if first > last {
        return false;
      }
      var turns := Clamp(Round((ref[idx] - angle) / (2.0 * pi)), first, last);
      angles[idx] := Shift(pi, angle, turns);
      if angles[idx] < lo[idx] - ALGEBRA_TOLERANCE || angles[idx] > hi[idx] + ALGEBRA_TOLERANCE {
        assert false;  // over the reals the recheck never fires
      }
    }
    return true;
  }

  lemma LiftSteps(pi: real, a: real, ref: real, lo: real, hi: real)
    requires pi > 0.0
    ensures var w := Wrapped(pi, a);
            var first, last := FirstTurn(pi, w, lo), LastTurn(pi, w, hi);
            && LiftedAngle(pi, a, ref, lo, hi) == Shift(pi, w, Clamp(Round((ref - w) / (2.0 * pi)), first, last))
            && (HasRoom(pi, a, lo, hi) <==> first <= last)
  {
  }

  /** The squared distance of the first n joints. */
  function SquaredDistanceTo(a: seq<real>, b: seq<real>, n: nat): real
    requires n <= |a| && n <= |b|
  {
    if n == 0 then 0.0 else SquaredDistanceTo(a, b, n - 1) + Sqr(a[n - 1] - b[n - 1])
  }

  function JointDistance(a: Joints, b: Joints): real {
    SquaredDistanceTo(a, b, JOINT_COUNT)
  }

  /** r is q with every joint shifted by whole turns, and inside the limits up to the algebra tolerance. */
  ghost predicate IsLiftOf(pi: real, q: Joints, lo: Joints, hi: Joints, r: Joints) {
    forall idx :: 0 <= idx < JOINT_COUNT ==> IsJointLift(pi, q[idx], lo[idx], hi[idx], r[idx])
  }

  ghost predicate IsJointLift(pi: real, a: real, lo: real, hi: real, b: real) {
    exists k: int :: b == Shift(pi, a, k) && Feasible(pi, a, lo, hi, k)
  }

  /** The lift is itself a feasible lift, and no feasible lift is closer to the reference. */
  lemma LiftIsOptimal(pi: real, q: Joints, ref: Joints, lo: Joints, hi: Joints)
    requires pi > 0.0 && AllLiftable(pi, q, lo, hi)
    ensures IsLiftOf(pi, q, lo, hi, Lifted(pi, q, ref, lo, hi))
    ensures forall r: Joints :: IsLiftOf(pi, q, lo, hi, r) ==>
              JointDistance(Lifted(pi, q, ref, lo, hi), ref) <= JointDistance(r, ref)
  {
    var l := Lifted(pi, q, ref, lo, hi);
    LiftedJoints(pi, q, ref, lo, hi);
    forall r: Joints | IsLiftOf(pi, q, lo, hi, r)
      ensures JointDistance(l, ref) <= JointDistance(r, ref)
    {
      CloserJoints(pi, q, ref, lo, hi, r, JOINT_COUNT);
    }
  }

  lemma LiftedJoints(pi: real, q: Joints, ref: Joints, lo: Joints, hi: Joints)
    requires pi > 0.0 && AllLiftable(pi, q, lo, hi)
    ensures IsLiftOf(pi, q, lo, hi, Lifted(pi, q, ref, lo, hi))
  {
    hide Liftable, Wrapped, FirstTurn, LastTurn, Round, LiftedAngle;
    var l := Lifted(pi, q, ref, lo, hi);
    forall idx | 0 <= idx < JOINT_COUNT
      ensures IsJointLift(pi, q[idx], lo[idx], hi[idx], l[idx])
    {
      assert Liftable(pi, q[idx], lo[idx], hi[idx]);
      LiftOneJoint(pi, q[idx], ref[idx], lo[idx], hi[idx]);
      var k: int :| l[idx] == Shift(pi, q[idx], k);
      assert Feasible(pi, q[idx], lo[idx], hi[idx], k);
    }
  }

  lemma {:induction false} CloserJoints(pi: real, q: Joints, ref: Joints, lo: Joints, hi: Joints, r: Joints, n: nat)
    requires pi > 0.0 && AllLiftable(pi, q, lo, hi) && IsLiftOf(pi, q, lo, hi, r) && n <= JOINT_COUNT
    ensures SquaredDistanceTo(Lifted(pi, q, ref, lo, hi), ref, n) <= SquaredDistanceTo(r, ref, n)
  {
    hide Liftable, Wrapped, FirstTurn, LastTurn, Round, LiftedAngle, Feasible, Sqr, Shift;
    if n > 0 {
      var idx := n - 1;
      CloserJoints(pi, q, ref, lo, hi, r, idx);
      assert Liftable(pi, q[idx], lo[idx], hi[idx]);
      LiftOneJoint(pi, q[idx], ref[idx], lo[idx], hi[idx]);
      assert IsJointLift(pi, q[idx], lo[idx], hi[idx], r[idx]);
      var k: int :| r[idx] == Shift(pi, q[idx], k) && Feasible(pi, q[idx], lo[idx], hi[idx], k);
      SquareMonotone(Lifted(pi, q, ref, lo, hi)[idx] - ref[idx], r[idx] - ref[idx]);
    }
  }

  lemma SquareMonotone(x: real, y: real)
    requires Abs(x) <= Abs(y)
    ensures Sqr(x) <= Sqr(y)
  {
    var a, b := Abs(x), Abs(y);
    ProductMonotone(a, b);
    assert Sqr(x) == a * a && Sqr(y) == b * b;
  }

  lemma ProductMonotone(a: real, b: real)
    requires 0.0 <= a <= b
    ensures a * a <= b * b
  {
    if a < b {
      ScaledSign(a + b, b - a);
      assert (b - a) * (a + b) == b * b - a * a;
    }
  }

  predicate FullTurnRanges(pi: real, lo: Joints, hi: Joints) {
    forall idx :: 0 <= idx < JOINT_COUNT ==> hi[idx] - lo[idx] >= 2.0 * pi
  }

  /** With a full turn of room in every joint, lifting never fails. */
  lemma FullTurnAlwaysLifts(pi: real, q: Joints, lo: Joints, hi: Joints)
    requires pi > 0.0 && FullTurnRanges(pi, lo, hi)
    ensures AllLiftable(pi, q, lo, hi)
  {
    hide Liftable;
    forall idx | 0 <= idx < JOINT_COUNT
      ensures Liftable(pi, q[idx], lo[idx], hi[idx])
    {
      FullTurnRoom(2.0 * pi, lo[idx] - q[idx] - ALGEBRA_TOLERANCE, hi[idx] - q[idx] + ALGEBRA_TOLERANCE);
      FeasibleAtFirst(pi, q[idx], lo[idx], hi[idx]);
    }
  }

  lemma FullTurnRoom(m: real, a: real, b: real)
    requires m > 0.0 && b - a >= m
    ensures Ceil(a / m) <= Floor(b / m)
  {
    Division(a, m);
    Division(b, m);
    Multiples(m, a / m + 1.0, b / m);
    assert (a / m + 1.0) * m == (a / m) * m + m;
    assert b / m >= a / m + 1.0;
  }

  lemma FeasibleAtFirst(pi: real, a: real, lo: real, hi: real)
    requires pi > 0.0 && FirstTurn(pi, a, lo) <= LastTurn(pi, a, hi)
    ensures Liftable(pi, a, lo, hi)
  {
    FeasibleIff(pi, a, lo, hi, FirstTurn(pi, a, lo));
  }
}

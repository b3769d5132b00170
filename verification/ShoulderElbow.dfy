/** The shoulder circle and the two-link elbow. */
module ShoulderElbow {
  import opened Geometry
  import opened ArmAlgebra

  // ----- Shoulder ----------------------------------------------------------

  /** The target with the wrist's lateral offset taken off: P + p6.x n. */
  function Corrected(a: Arm, t: Pose): Vec {
    Plus(Minus(t.p, a.p1), Scale(a.p6.x, t.r.k))
  }

  /** The signed distance of the arm's plane from the first axis. */
  function ShoulderOffset(a: Arm): real {
    a.p2.x - a.p3.z - a.p4.z - a.p5.z
  }

  /** The first equation the solver satisfies: the corrected target, turned back, lies in the arm's plane. */
  predicate InPlane(a: Arm, t: Pose, u1: Unit) {
    RotZ(Neg(u1), Corrected(a, t)).x == ShoulderOffset(a)
  }

  /** The arm's plane is met exactly when the z check of the elbow holds, whatever the other joints. */
  lemma ShoulderIff(a: Arm, q: Turns, t: Pose)
    requires a.p6.y == 0.0
    requires Wrist(Sum(q), q.u5, q.u6) == Orientation(q.u1, t.r)
    ensures InPlane(a, t, q.u1) <==> Remaining(a, q, t.p).z == a.p3.z + a.p4.z
  {
    hide Wrist, Sum, Corrected, RotZ, Neg;
    WristBottom(Sum(q), q.u5, q.u6);
    var back := Neg(q.u1);
    assert Orientation(q.u1, t.r).k.z == -RotZ(back, t.r.k).x;
    RemainingHeight(a, q, t.p);
    CorrectedTurned(a, t, back);
  }

  lemma WristBottom(s: Unit, w: Unit, l: Unit)
    ensures Wrist(s, w, l).k.z == w.c
  {
    assert TiltColumns(w, RotZMat(l)).k == Vec(0.0, -w.s, w.c);
  }

  lemma RemainingHeight(a: Arm, q: Turns, p: Vec)
    requires a.p6.y == 0.0
    ensures Remaining(a, q, p).z == a.p2.x - RotZ(Neg(q.u1), Minus(p, a.p1)).x - a.p5.z + q.u5.c * a.p6.x
  {
    hide Neg, Sum;
    assert RotZ(q.u5, a.p6).x == q.u5.c * a.p6.x;
  }

  lemma CorrectedTurned(a: Arm, t: Pose, back: Unit)
    ensures RotZ(back, Corrected(a, t)).x == RotZ(back, Minus(t.p, a.p1)).x + a.p6.x * RotZ(back, t.r.k).x
  {
    hide RotZ;
    RotZPlus(back, Minus(t.p, a.p1), Scale(a.p6.x, t.r.k));
    RotZScale(back, a.p6.x, t.r.k);
  }

  // ----- Elbow -------------------------------------------------------------

  /** The planar part of v is k times the direction u. */
  predicate Polar(v: Vec, k: real, u: Unit) {
    v.x == k * u.c && v.y == k * u.s
  }

  /** First and second link in the frame of the first: (L1 + L2 cos e, L2 sin e). */
  function Bent(l1: real, l2: real, e: Unit): Vec {
    Vec(l1 + l2 * e.c, l2 * e.s, 0.0)
  }

  /** The direction of the first link and the interior angle of the elbow. */
  function ArmAngle(q: Turns, b1: Unit): Unit {
    Add(q.u2, b1)
  }

  function ElbowAngle(q: Turns, b1: Unit, b2: Unit): Unit {
    Add(Add(q.u3, b2), Neg(b1))
  }

  lemma LinksAreBent(a: Arm, q: Turns, l1: real, l2: real, b1: Unit, b2: Unit)
    requires IsUnit(b1) && Polar(a.p3, l1, b1) && Polar(a.p4, l2, b2)
    ensures Links(a, q).z == a.p3.z + a.p4.z
    ensures var m := RotZ(ArmAngle(q, b1), Bent(l1, l2, ElbowAngle(q, b1, b2)));
            Links(a, q).x == m.x && Links(a, q).y == m.y
  {
    var al, el := ArmAngle(q, b1), ElbowAngle(q, b1, b2);
    TurnPolar(q.u2, a.p3, l1, b1);
    TurnPolar(Add(q.u2, q.u3), a.p4, l2, b2);
    assert Add(Add(q.u2, q.u3), b2) == Add(al, el) by {
      hide *;
      ElbowRegroups(q.u2, q.u3, b1, b2);
    }
    BentTurned(al, el, l1, l2);
  }

  lemma ElbowRegroups(u2: Unit, u3: Unit, b1: Unit, b2: Unit)
    requires IsUnit(b1)
    ensures Add(Add(u2, u3), b2) == Add(Add(u2, b1), Add(Add(u3, b2), Neg(b1)))
  {
    hide *;
    var m := Add(u3, b2);
    AddAssoc(u2, u3, b2);
    AddAssoc(u2, b1, Add(m, Neg(b1)));
    AddComm(b1, Add(m, Neg(b1)));
    AddCancel(m, b1);
  }

  lemma TurnPolar(u: Unit, v: Vec, k: real, b: Unit)
    requires Polar(v, k, b)
    ensures Polar(RotZ(u, v), k, Add(u, b))
  {
    TurnPolarScalar(u.c, u.s, v.x, v.y, k, b.c, b.s, Add(u, b).c, Add(u, b).s);
  }

  lemma TurnPolarScalar(c: real, s: real, x: real, y: real, k: real, d: real, t: real, e: real, f: real)
    requires x == k * d && y == k * t && e == c * d - s * t && f == s * d + c * t
    ensures c * x - s * y == k * e && s * x + c * y == k * f
  {
  }

  lemma BentTurned(al: Unit, el: Unit, l1: real, l2: real)
    ensures var m := RotZ(al, Bent(l1, l2, el));
            m.x == l1 * al.c + l2 * Add(al, el).c && m.y == l1 * al.s + l2 * Add(al, el).s
  {
    var b, sum := Bent(l1, l2, el), Add(al, el);
    BentScalar(al.c, al.s, el.c, el.s, l1, l2, b.x, b.y, sum.c, sum.s);
  }

  lemma BentScalar(c: real, s: real, d: real, t: real, l1: real, l2: real, x: real, y: real, e: real, f: real)
    requires x == l1 + l2 * d && y == l2 * t && e == c * d - s * t && f == s * d + c * t
    ensures c * x - s * y == l1 * c + l2 * e && s * x + c * y == l1 * s + l2 * f
  {
  }

  /** The law of cosines. */
  lemma BentSquare(l1: real, l2: real, e: Unit)
    requires IsUnit(e)
    ensures PlanarSquare(Bent(l1, l2, e)) == l1 * l1 + l2 * l2 + 2.0 * l1 * l2 * e.c
  {
    BentSquareScalar(l1, l2, e.c, e.s, l1 + l2 * e.c, l2 * e.s);
  }

  lemma BentSquareScalar(l1: real, l2: real, c: real, s: real, x: real, y: real)
    requires c * c + s * s == 1.0 && x == l1 + l2 * c && y == l2 * s
    ensures x * x + y * y == l1 * l1 + l2 * l2 + 2.0 * l1 * l2 * c
  {
    assert (l1 + l2 * c) * (l1 + l2 * c) + (l2 * s) * (l2 * s)
        == l1 * l1 + 2.0 * l1 * l2 * c + l2 * l2 * (c * c + s * s);
  }

  lemma TurnKeepsPlanarSquare(u: Unit, v: Vec)
    requires IsUnit(u)
    ensures PlanarSquare(RotZ(u, v)) == PlanarSquare(v)
  {
    var w := RotZ(u, v);
    PlanarSquareScalar(u.c, u.s, v.x, v.y, w.x, w.y, u.c * u.c + u.s * u.s);
  }

  lemma PlanarSquareScalar(c: real, s: real, x: real, y: real, e: real, f: real, n: real)
    requires e == c * x - s * y && f == s * x + c * y && n == c * c + s * s && n == 1.0
    ensures e * e + f * f == x * x + y * y
  {
    assert (c * x - s * y) * (c * x - s * y) + (s * x + c * y) * (s * x + c * y) == (c * c + s * s) * (x * x + y * y);
  }

  /** A vector is turned onto another of the same length by the difference of their directions. */
  lemma DirectionsMeet(v: Vec, w: Vec, k: real, fv: Unit, fw: Unit, al: Unit)
    requires IsUnit(fv) && IsUnit(fw) && Polar(v, k, fv) && Polar(w, k, fw)
    requires al == Add(fv, Neg(fw))
    ensures RotZ(al, w).x == v.x && RotZ(al, w).y == v.y
  {
    TurnPolar(al, w, k, fw);
    AddCancel(fv, fw);
  }

  /** ... and by no other angle when the length is not zero. */
  lemma DirectionsUnique(v: Vec, w: Vec, k: real, fv: Unit, fw: Unit, al: Unit)
    requires IsUnit(fw) && Polar(v, k, fv) && Polar(w, k, fw) && k != 0.0
    requires RotZ(al, w).x == v.x && RotZ(al, w).y == v.y
    ensures al == Add(fv, Neg(fw))
  {
    TurnPolar(al, w, k, fw);
    var sum := Add(al, fw);
    CancelReal(k, sum.c, fv.c);
    CancelReal(k, sum.s, fv.s);
    assert sum == fv;
    AddCancel(al, fw);
  }

  lemma CancelReal(k: real, a: real, b: real)
    requires k != 0.0 && k * a == k * b
    ensures a == b
  {
    assert k * (a - b) == 0.0;
  }
}

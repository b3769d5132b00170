/**
  The closed-form inverse of the six-joint chain, over unit pairs.

  The chain is B1 Rz(q1) B2 Rz(q2) ... B6 Rz(q6) with B1 = T(p1), B2 = T(p2) Ry(-90), B3 = T(p3),
  B4 = T(p4), B5 = T(p5) Ry(90) and B6 = T(p6) Ry(-90).
  */
module ArmAlgebra {
  import opened Geometry

  /** Translations of the six joint origins. */
  datatype Arm = Arm(p1: Vec, p2: Vec, p3: Vec, p4: Vec, p5: Vec, p6: Vec)

  /** Six joint angles modulo full turns. */
  datatype Turns = Turns(u1: Unit, u2: Unit, u3: Unit, u4: Unit, u5: Unit, u6: Unit)

  predicate AreUnits(q: Turns) {
    IsUnit(q.u1) && IsUnit(q.u2) && IsUnit(q.u3) && IsUnit(q.u4) && IsUnit(q.u5) && IsUnit(q.u6)
  }

  /** q2 + q3 + q4. */
  function Sum(q: Turns): Unit {
    Add(Add(q.u2, q.u3), q.u4)
  }

  /** Where the chain takes a point given in the sixth joint's frame. */
  function Carry(a: Arm, q: Turns, v: Vec): Vec {
    Plus(a.p1, RotZ(q.u1, Plus(a.p2, BackY(RotZ(q.u2, Shoulderless(a, q, v))))))
  }

  function Shoulderless(a: Arm, q: Turns, v: Vec): Vec {
    Plus(a.p3, RotZ(q.u3, Plus(a.p4, RotZ(q.u4, Plus(a.p5, TurnY(RotZ(q.u5, Plus(a.p6, BackY(RotZ(q.u6, v))))))))))
  }

  ghost predicate Hits(a: Arm, q: Turns, t: Pose) {
    forall v :: Carry(a, q, v) == Apply(t, v)
  }

  // ----- Separating the shoulder, the plane of the arm and the wrist --------

  /** The two links seen from the shoulder: Rz(q2) p3 + Rz(q2 + q3) p4. */
  function Links(a: Arm, q: Turns): Vec {
    Plus(RotZ(q.u2, a.p3), RotZ(Add(q.u2, q.u3), a.p4))
  }

  /** Rz(s) p5 + Rz(s) Ry(90) Rz(q5) p6. */
  function WristOffset(a: Arm, s: Unit, w: Unit): Vec {
    Plus(RotZ(s, a.p5), RotZ(s, TurnY(RotZ(w, a.p6))))
  }

  /** Ry(90) (Rz(-q1) (p - p1) - p2). */
  function LocalTarget(a: Arm, u1: Unit, p: Vec): Vec {
    TurnY(Minus(RotZ(Neg(u1), Minus(p, a.p1)), a.p2))
  }

  function Remaining(a: Arm, q: Turns, p: Vec): Vec {
    Minus(LocalTarget(a, q.u1, p), WristOffset(a, Sum(q), q.u5))
  }

  /** Ry(90) Rz(-q1), applied to a direction. */
  function Local(u1: Unit, v: Vec): Vec {
    TurnY(RotZ(Neg(u1), v))
  }

  function Orientation(u1: Unit, r: Mat): Mat {
    Mat(Local(u1, r.i), Local(u1, r.j), Local(u1, r.k))
  }

  /** Rz(s) Rx(w) Rz(l). */
  function Wrist(s: Unit, w: Unit, l: Unit): Mat {
    TurnColumns(s, TiltColumns(w, RotZMat(l)))
  }

  lemma WristAct(s: Unit, w: Unit, l: Unit, v: Vec)
    ensures Act(Wrist(s, w, l), v) == RotZ(s, RotX(w, RotZ(l, v)))
  {
    TurnColumnsAct(s, TiltColumns(w, RotZMat(l)), v);
    TiltColumnsAct(w, RotZMat(l), v);
    ActRotations(l, v);
  }

  lemma OrientationAct(u1: Unit, r: Mat, v: Vec)
    ensures Act(Orientation(u1, r), v) == Local(u1, Act(r, v))
  {
    TurnColumnsAct(Neg(u1), r, v);
    QuarterColumns(TurnColumns(Neg(u1), r), v);
  }

  /** The chain, with the three parallel joints collapsed into their sum. */
  lemma ChainCollapses(a: Arm, q: Turns, v: Vec)
    ensures RotZ(q.u2, Shoulderless(a, q, v))
         == Plus(Plus(Links(a, q), WristOffset(a, Sum(q), q.u5)), Act(Wrist(Sum(q), q.u5, q.u6), v))
  {
    var tip := BackY(RotZ(q.u6, v));
    RotZPlus(q.u5, a.p6, tip);
    TurnedRotation(q.u5, RotZ(q.u6, v));
    var fore := TurnY(RotZ(q.u5, a.p6));
    var hand := RotX(q.u5, RotZ(q.u6, v));
    var inner := Plus(a.p5, Plus(fore, hand));
    assert Plus(a.p5, TurnY(RotZ(q.u5, Plus(a.p6, tip)))) == inner;
    Fold(q.u2, q.u3, q.u4, a.p3, a.p4, inner);
    RotZPlus(Sum(q), a.p5, Plus(fore, hand));
    RotZPlus(Sum(q), fore, hand);
    WristAct(Sum(q), q.u5, q.u6, v);
  }

  lemma Fold(a: Unit, b: Unit, c: Unit, x: Vec, y: Vec, z: Vec)
    ensures RotZ(a, Plus(x, RotZ(b, Plus(y, RotZ(c, z)))))
         == Plus(Plus(RotZ(a, x), RotZ(Add(a, b), y)), RotZ(Add(Add(a, b), c), z))
  {
    RotZPlus(b, y, RotZ(c, z));
    RotZPlus(a, x, RotZ(b, Plus(y, RotZ(c, z))));
    RotZPlus(a, RotZ(b, y), RotZ(b, RotZ(c, z)));
    RotZAdd(a, b, y);
    RotZAdd(a, b, RotZ(c, z));
    RotZAdd(Add(a, b), c, z);
  }

  /** Undoing the base, the shoulder and the first quarter turn. */
  lemma Unshoulder(a: Arm, u1: Unit, m: Vec, p: Vec)
    requires IsUnit(u1)
    ensures Plus(a.p1, RotZ(u1, Plus(a.p2, BackY(m)))) == p <==> m == LocalTarget(a, u1, p)
  {
    var inner := Plus(a.p2, BackY(m));
    var lifted := Minus(p, a.p1);
    if Plus(a.p1, RotZ(u1, inner)) == p {
      assert RotZ(u1, inner) == lifted;
      RotZNeg(u1, inner);
      assert TurnY(Minus(inner, a.p2)) == m;
    }
    if m == LocalTarget(a, u1, p) {
      RotZNeg(u1, lifted);
      assert inner == RotZ(Neg(u1), lifted);
    }
  }

  lemma LocalPlus(a: Arm, u1: Unit, p: Vec, v: Vec)
    ensures LocalTarget(a, u1, Plus(v, p)) == Plus(LocalTarget(a, u1, p), Local(u1, v))
  {
    RotZPlus(Neg(u1), Minus(p, a.p1), v);
    assert Minus(Plus(v, p), a.p1) == Plus(Minus(p, a.p1), v);
  }

  /** The collapsed chain and the local target, at one point. */
  ghost predicate MeetsAt(a: Arm, q: Turns, t: Pose, v: Vec) {
    Plus(Links(a, q), Act(Wrist(Sum(q), q.u5, q.u6), v)) == Plus(Remaining(a, q, t.p), Act(Orientation(q.u1, t.r), v))
  }

  /** One point is carried to its target exactly when the collapsed chain meets the local target. */
  lemma CarryIff(a: Arm, q: Turns, t: Pose, v: Vec)
    requires AreUnits(q)
    ensures Carry(a, q, v) == Apply(t, v) <==> MeetsAt(a, q, t, v)
  {
    ChainCollapses(a, q, v);
    Unshoulder(a, q.u1, RotZ(q.u2, Shoulderless(a, q, v)), Apply(t, v));
    LocalPlus(a, q.u1, t.p, Act(t.r, v));
    OrientationAct(q.u1, t.r, v);
  }

  lemma AffineMapsEqual(l: Vec, r: Vec, w: Mat, o: Mat)
    requires Plus(l, Act(w, ZERO)) == Plus(r, Act(o, ZERO)) && Plus(l, Act(w, EX)) == Plus(r, Act(o, EX))
    requires Plus(l, Act(w, EY)) == Plus(r, Act(o, EY)) && Plus(l, Act(w, EZ)) == Plus(r, Act(o, EZ))
    ensures l == r && w == o
  {
    ActBasis(w);
    ActBasis(o);
  }

  /** What a joint vector must satisfy, stated without the points it carries. */
  predicate Meets(a: Arm, q: Turns, t: Pose) {
    Wrist(Sum(q), q.u5, q.u6) == Orientation(q.u1, t.r) && Links(a, q) == Remaining(a, q, t.p)
  }

  lemma HitsImpliesMeets(a: Arm, q: Turns, t: Pose)
    requires AreUnits(q) && Hits(a, q, t)
    ensures Meets(a, q, t)
  {
    forall v ensures MeetsAt(a, q, t, v) {
      assert Carry(a, q, v) == Apply(t, v);
      CarryIff(a, q, t, v);
    }
    assert MeetsAt(a, q, t, ZERO) && MeetsAt(a, q, t, EX) && MeetsAt(a, q, t, EY) && MeetsAt(a, q, t, EZ);
    AffineMapsEqual(Links(a, q), Remaining(a, q, t.p), Wrist(Sum(q), q.u5, q.u6), Orientation(q.u1, t.r));
  }

  /** Reaching a pose splits into an orientation equation and a position equation. */
  lemma HitsIff(a: Arm, q: Turns, t: Pose)
    requires AreUnits(q)
    ensures Hits(a, q, t) <==> Meets(a, q, t)
  {
    if Hits(a, q, t) {
      HitsImpliesMeets(a, q, t);
    }
    if Meets(a, q, t) {
      forall v ensures Carry(a, q, v) == Apply(t, v) {
        CarryIff(a, q, t, v);
        assert MeetsAt(a, q, t, v);
      }
    }
  }
}

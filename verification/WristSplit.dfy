/** The ZXZ split of the wrist orientation, away from and at the singular wrist. */
module WristSplit {
  import opened Geometry
  import opened ArmAlgebra

  // ----- The orientation seen from the shoulder is a rotation ---------------

  lemma OrientationIsRotation(u1: Unit, r: Mat)
    requires IsUnit(u1) && IsRotation(r)
    ensures IsRotation(Orientation(u1, r))
  {
    LocalDot(u1, r.i, r.i);
    LocalDot(u1, r.j, r.j);
    LocalDot(u1, r.k, r.k);
    LocalDot(u1, r.i, r.j);
    LocalDot(u1, r.j, r.k);
    LocalDot(u1, r.k, r.i);
    LocalCross(u1, r.i, r.j);
    LocalDot(u1, r.k, Cross(r.i, r.j));
  }

  lemma LocalDot(u1: Unit, a: Vec, b: Vec)
    requires IsUnit(u1)
    ensures Dot(Local(u1, a), Local(u1, b)) == Dot(a, b)
  {
    hide IsUnit, RotZ;
    AddIsUnit(u1, u1);
    RotZDot(Neg(u1), a, b);
    var p, q := RotZ(Neg(u1), a), RotZ(Neg(u1), b);
    assert Dot(TurnY(p), TurnY(q)) == Dot(p, q);
  }

  lemma LocalCross(u1: Unit, a: Vec, b: Vec)
    requires IsUnit(u1)
    ensures Cross(Local(u1, a), Local(u1, b)) == Local(u1, Cross(a, b))
  {
    hide IsUnit, Cross, RotZ;
    AddIsUnit(u1, u1);
    RotZCross(Neg(u1), a, b);
    CrossTurned(RotZ(Neg(u1), a), RotZ(Neg(u1), b));
  }

  // ----- Entries of Rz(s) Rx(w) Rz(l) --------------------------------------

  lemma WristEntries(s: Unit, w: Unit, l: Unit)
    ensures Wrist(s, w, l)
         == Mat(Vec(s.c * l.c - s.s * (w.c * l.s), s.s * l.c + s.c * (w.c * l.s), w.s * l.s),
                Vec(-(s.c * l.s) - s.s * (w.c * l.c), s.c * (w.c * l.c) - s.s * l.s, w.s * l.c),
                Vec(s.s * w.s, -(s.c * w.s), w.c))
  {
    hide RotZ, TiltColumns;
    var tilted := TiltColumns(w, RotZMat(l));
    TiltedEntries(w, l);
    WristColumn(s, tilted.i);
    WristColumn(s, tilted.j);
    WristColumn(s, tilted.k);
    MinusProduct(s.c, l.s);
    MinusProduct(s.s, l.s);
    MinusProduct(s.s, w.s);
    MinusProduct(s.c, w.s);
  }

  lemma TiltedEntries(w: Unit, l: Unit)
    ensures TiltColumns(w, RotZMat(l))
         == Mat(Vec(l.c, w.c * l.s, w.s * l.s), Vec(-l.s, w.c * l.c, w.s * l.c), Vec(0.0, -w.s, w.c))
  {
  }

  lemma WristColumn(s: Unit, v: Vec)
    ensures RotZ(s, v) == Vec(s.c * v.x - s.s * v.y, s.s * v.x + s.c * v.y, v.z)
  {
  }

  lemma MinusProduct(a: real, b: real)
    ensures a * (-b) == -(a * b)
  {
  }

  // ----- Away from the singular wrist --------------------------------------

  /** What the four arc tangents of the regular wrist fix: the third column and the third row. */
  predicate RegularWrist(o: Mat, s: Unit, w: Unit, l: Unit) {
    && w.c == o.k.z && s.s * w.s == o.k.x && -(s.c * w.s) == o.k.y
    && w.s * l.s == o.i.z && w.s * l.c == o.j.z
  }

  lemma Cancel(k: real, a: real, b: real)
    requires k != 0.0 && k * a == k * b
    ensures a == b
  {
    assert k * (a - b) == 0.0;
  }

  /** With a tilted wrist, third row and third column determine the whole rotation. */
  lemma RegularWristIff(o: Mat, s: Unit, w: Unit, l: Unit)
    requires IsRotation(o) && IsUnit(s) && IsUnit(w) && IsUnit(l) && w.s != 0.0
    ensures Wrist(s, w, l) == o <==> RegularWrist(o, s, w, l)
  {
    if Wrist(s, w, l) == o {
      WristEntries(s, w, l);
    }
    if RegularWrist(o, s, w, l) {
      RegularWristRestores(o, s, w, l);
    }
  }

  lemma RegularWristRestores(o: Mat, s: Unit, w: Unit, l: Unit)
    requires IsRotation(o) && IsUnit(w) && w.s != 0.0
    requires RegularWrist(o, s, w, l)
    ensures Wrist(s, w, l) == o
  {
    hide IsRotation, Wrist, IsUnit;
    var m := Wrist(s, w, l);
    WristEntries(s, w, l);
    RegularUpper(o, s, w, l, m);
    assert m.k == o.k && m.i.z == o.i.z && m.j.z == o.j.z;
    VecByComponents(m.i, o.i);
    VecByComponents(m.j, o.j);
  }

  lemma RegularUpper(o: Mat, s: Unit, w: Unit, l: Unit, m: Mat)
    requires IsRotation(o) && IsUnit(w) && w.s != 0.0
    requires RegularWrist(o, s, w, l)
    requires m.i.x == s.c * l.c - s.s * (w.c * l.s) && m.i.y == s.s * l.c + s.c * (w.c * l.s)
    requires m.j.x == -(s.c * l.s) - s.s * (w.c * l.c) && m.j.y == s.c * (w.c * l.c) - s.s * l.s
    ensures m.i.x == o.i.x && m.i.y == o.i.y && m.j.x == o.j.x && m.j.y == o.j.y
  {
    hide IsRotation;
    CofactorEntries(o);
    RegularScaled(o.i.x, o.i.y, o.i.z, o.j.x, o.j.y, o.j.z, o.k.x, o.k.y, o.k.z,
                  s.c, s.s, w.c, w.s, l.c, l.s, w.s * w.s, m.i.x, m.i.y, m.j.x, m.j.y);
  }

  lemma CofactorEntries(o: Mat)
    requires IsRotation(o)
    ensures o.i.x == o.j.y * o.k.z - o.j.z * o.k.y && o.i.y == o.j.z * o.k.x - o.j.x * o.k.z
    ensures o.j.x == o.k.y * o.i.z - o.k.z * o.i.y && o.j.y == o.k.z * o.i.x - o.k.x * o.i.z
  {
    hide IsRotation;
    RotationCofactors(o);
  }

  lemma RegularScaled(a: real, b: real, c: real, d: real, e: real, f: real, x: real, y: real, z: real,
                      sc: real, ss: real, wc: real, ws: real, lc: real, ls: real, n: real,
                      a': real, b': real, d': real, e': real)
    requires a == e * z - f * y && b == f * x - d * z && d == y * c - z * b && e == z * a - x * c
    requires wc == z && ss * ws == x && -(sc * ws) == y && ws * ls == c && ws * lc == f
    requires n == ws * ws && n + wc * wc == 1.0 && ws != 0.0
    requires a' == sc * lc - ss * (wc * ls) && b' == ss * lc + sc * (wc * ls)
    requires d' == -(sc * ls) - ss * (wc * lc) && e' == sc * (wc * lc) - ss * ls
    ensures a' == a && b' == b && d' == d && e' == e
  {
    NonzeroSquare(ws, n);
    Quartic(sc * ws, ss * ws, ws * lc, ws * ls, wc, ws, sc, ss, lc, ls, n, x, y, z, c, f, a', b', d', e');
    CofactorsFirst(a, b, c, d, e, f, x, y, z, n);
    CofactorsSecond(a, b, c, d, e, f, x, y, z, n);
    Cancel(n, a', a);
    Cancel(n, b', b);
    Cancel(n, d', d);
    Cancel(n, e', e);
  }

  lemma NonzeroSquare(x: real, n: real)
    requires x != 0.0 && n == x * x
    ensures n != 0.0
  {
    SquareSign(x);
  }

  lemma Quartic(p: real, q: real, r: real, t: real, wc: real, ws: real, sc: real, ss: real, lc: real, ls: real,
                n: real, x: real, y: real, z: real, c: real, f: real, a': real, b': real, d': real, e': real)
    requires a' == sc * lc - ss * (wc * ls) && b' == ss * lc + sc * (wc * ls)
    requires d' == -(sc * ls) - ss * (wc * lc) && e' == sc * (wc * lc) - ss * ls
    requires p == sc * ws && q == ss * ws && r == ws * lc && t == ws * ls && n == ws * ws
    requires p == -y && q == x && r == f && t == c && wc == z
    ensures n * a' == -(y * f) - x * (z * c)
    ensures n * b' == x * f - y * (z * c)
    ensures n * d' == y * c - x * (z * f)
    ensures n * e' == -(y * (z * f)) - x * c
  {
    QuarticExpand(ws, sc, ss, lc, ls, wc);
    QuarticSubstitute(p, q, r, t, wc, x, y, z, c, f);
  }

  lemma QuarticExpand(ws: real, sc: real, ss: real, lc: real, ls: real, wc: real)
    ensures (ws * ws) * (sc * lc - ss * (wc * ls)) == (sc * ws) * (ws * lc) - (ss * ws) * (wc * (ws * ls))
    ensures (ws * ws) * (ss * lc + sc * (wc * ls)) == (ss * ws) * (ws * lc) + (sc * ws) * (wc * (ws * ls))
    ensures (ws * ws) * (-(sc * ls) - ss * (wc * lc)) == -((sc * ws) * (ws * ls)) - (ss * ws) * (wc * (ws * lc))
    ensures (ws * ws) * (sc * (wc * lc) - ss * ls) == (sc * ws) * (wc * (ws * lc)) - (ss * ws) * (ws * ls)
  {
  }

  lemma QuarticSubstitute(p: real, q: real, r: real, t: real, wc: real, x: real, y: real, z: real, c: real, f: real)
    requires p == -y && q == x && r == f && t == c && wc == z
    ensures p * r - q * (wc * t) == -(y * f) - x * (z * c)
    ensures q * r + p * (wc * t) == x * f - y * (z * c)
    ensures -(p * t) - q * (wc * r) == y * c - x * (z * f)
    ensures p * (wc * r) - q * t == -(y * (z * f)) - x * c
  {
  }

  lemma CofactorsFirst(a: real, b: real, c: real, d: real, e: real, f: real, x: real, y: real, z: real, n: real)
    requires a == e * z - f * y && e == z * a - x * c && n == 1.0 - z * z
    ensures -(y * f) - x * (z * c) == n * a
    ensures -(y * (z * f)) - x * c == n * e
  {
    Multiply(z, e, z * a, x * c);
    Multiply(z, a, e * z, f * y);
  }

  lemma CofactorsSecond(a: real, b: real, c: real, d: real, e: real, f: real, x: real, y: real, z: real, n: real)
    requires b == f * x - d * z && d == y * c - z * b && n == 1.0 - z * z
    ensures x * f - y * (z * c) == n * b
    ensures y * c - x * (z * f) == n * d
  {
    Multiply(z, d, y * c, z * b);
    Multiply(z, b, f * x, d * z);
  }

  lemma Multiply(k: real, a: real, p: real, q: real)
    requires a == p - q
    ensures k * a == k * p - k * q
  {
  }

  // ----- At the singular wrist ---------------------------------------------

  /** The in-plane angle of an orientation whose third column is vertical. */
  function PlaneAngle(o: Mat): Unit {
    Unit(o.i.x, o.i.y)
  }

  function Opposite(v: Vec): Vec {
    Vec(-v.x, -v.y, -v.z)
  }

  /** A rotation about z by the angle u, turned upside down when the wrist is folded back. */
  function Flat(u: Unit, folded: bool): Mat {
    var m := RotZMat(u);
    if folded then Mat(m.i, Opposite(m.j), Opposite(m.k)) else m
  }

  /** The one in-plane angle a singular wrist produces. */
  function Merged(s: Unit, w: Unit, l: Unit): Unit {
    if w == ONE then Add(s, l) else Add(s, Neg(l))
  }

  /**
    At a flat orientation only s + q6, or s - q6 when the wrist is folded back, is determined, and it determines the
    whole rotation.
    */
  lemma SingularWristIff(o: Mat, s: Unit, w: Unit, l: Unit)
    requires (w == ONE || w == HALF) && o == Flat(PlaneAngle(o), w == HALF)
    ensures Wrist(s, w, l) == o <==> Merged(s, w, l) == PlaneAngle(o)
  {
    SingularEntries(s, w, l);
    FlatMeets(Wrist(s, w, l), o, Merged(s, w, l), PlaneAngle(o), w == HALF);
  }

  /** A rotation with a vertical third column is flat. */
  lemma VerticalIsFlat(o: Mat)
    requires IsRotation(o) && o.k.x == 0.0 && o.k.y == 0.0
    ensures Unit(o.k.z, 0.0) == ONE || Unit(o.k.z, 0.0) == HALF
    ensures o == Flat(PlaneAngle(o), Unit(o.k.z, 0.0) == HALF)
  {
    hide IsRotation, Flat;
    VerticalOrientation(o);
    SingularColumns(o);
  }

  lemma VerticalOrientation(o: Mat)
    requires IsRotation(o) && o.k.x == 0.0 && o.k.y == 0.0
    ensures (o.k.z == 1.0 || o.k.z == -1.0) && o.i.z == 0.0
    ensures IsUnit(PlaneAngle(o))
  {
    hide IsRotation;
    FirstAndLastColumn(o);
    VerticalColumn(o.i.x, o.i.y, o.i.z, o.k.z, o.k.x, o.k.y);
  }

  lemma FirstAndLastColumn(o: Mat)
    requires IsRotation(o)
    ensures o.k.x * o.k.x + o.k.y * o.k.y + o.k.z * o.k.z == 1.0
    ensures o.i.x * o.i.x + o.i.y * o.i.y + o.i.z * o.i.z == 1.0
    ensures o.k.x * o.i.x + o.k.y * o.i.y + o.k.z * o.i.z == 0.0
  {
    hide Determinant;
  }

  lemma FlatMeets(m: Mat, o: Mat, a: Unit, b: Unit, folded: bool)
    requires m == Flat(a, folded) && o == Flat(b, folded)
    ensures m == o <==> b == a
  {
    FlatInjective(a, b, folded);
  }

  lemma FlatInjective(a: Unit, b: Unit, folded: bool)
    ensures Flat(a, folded) == Flat(b, folded) <==> a == b
  {
    assert Flat(a, folded).i == Vec(a.c, a.s, 0.0) && Flat(b, folded).i == Vec(b.c, b.s, 0.0);
  }

  lemma SingularColumns(o: Mat)
    requires IsRotation(o) && o.k.x == 0.0 && o.k.y == 0.0 && o.i.z == 0.0
    requires o.k.z == 1.0 || o.k.z == -1.0
    ensures o == Flat(PlaneAngle(o), o.k.z == -1.0)
  {
    hide IsRotation, Cross;
    RotationCofactors(o);
    CrossVertical(o.k, o.i);
  }

  lemma CrossVertical(k: Vec, v: Vec)
    requires k == EZ || k == Opposite(EZ)
    ensures Cross(k, v) == if k == EZ then Vec(-v.y, v.x, 0.0) else Vec(v.y, -v.x, 0.0)
  {
  }

  lemma SingularEntries(s: Unit, w: Unit, l: Unit)
    requires w == ONE || w == HALF
    ensures w == ONE ==> Wrist(s, w, l) == Flat(Add(s, l), false)
    ensures w == HALF ==> Wrist(s, w, l) == Flat(Add(s, Neg(l)), true)
  {
    if w == ONE {
      StraightTilt(RotZMat(l).i);
      StraightTilt(RotZMat(l).j);
      StraightTilt(RotZMat(l).k);
      TurnRotZMat(s, l);
    } else {
      StraightTilt(RotZMat(l).i);
      StraightTilt(RotZMat(l).j);
      StraightTilt(RotZMat(l).k);
      var m := RotZMat(Neg(l));
      assert TiltColumns(HALF, RotZMat(l)) == Mat(m.i, Opposite(m.j), Opposite(m.k));
      TurnRotZMat(s, Neg(l));
      TurnOpposite(s, m.j);
      TurnOpposite(s, m.k);
    }
  }

  lemma StraightTilt(v: Vec)
    ensures RotX(ONE, v) == v
    ensures RotX(HALF, v) == Vec(v.x, -v.y, -v.z)
  {
  }

  lemma TurnRotZMat(s: Unit, l: Unit)
    ensures TurnColumns(s, RotZMat(l)) == RotZMat(Add(s, l))
  {
    MinusProduct(s.c, l.s);
    MinusProduct(s.s, l.s);
  }

  lemma TurnOpposite(s: Unit, v: Vec)
    ensures RotZ(s, Opposite(v)) == Opposite(RotZ(s, v))
  {
    MinusProduct(s.c, v.x);
    MinusProduct(s.s, v.y);
    MinusProduct(s.s, v.x);
    MinusProduct(s.c, v.y);
  }

  lemma VerticalColumn(a: real, b: real, c: real, e: real, x: real, y: real)
    requires x == 0.0 && y == 0.0
    requires x * x + y * y + e * e == 1.0 && a * a + b * b + c * c == 1.0 && x * a + y * b + e * c == 0.0
    ensures (e == 1.0 || e == -1.0) && c == 0.0 && a * a + b * b == 1.0
  {
    assert (e - 1.0) * (e + 1.0) == 0.0;
    assert e * c == 0.0;
  }
}

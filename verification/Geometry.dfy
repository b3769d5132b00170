/** Unit pairs, vectors, rotations and rigid poses over the exact reals. */
module Geometry {

  // ----- Real numbers ------------------------------------------------------

  function Abs(x: real): real {
    if x < 0.0 then -x else x
  }

  function Max(a: real, b: real): real {
    if a < b then b else a
  }

  // ----- Planar angles -----------------------------------------------------

  /** An angle modulo full turns, as its cosine and sine. */
  datatype Unit = Unit(c: real, s: real)

  predicate IsUnit(u: Unit) {
    u.c * u.c + u.s * u.s == 1.0
  }

  const ONE := Unit(1.0, 0.0)
  const HALF := Unit(-1.0, 0.0)
  const QUARTER := Unit(0.0, 1.0)

  /** The pair of the sum of two angles. */
  function Add(a: Unit, b: Unit): Unit {
    Unit(a.c * b.c - a.s * b.s, a.s * b.c + a.c * b.s)
  }

  /** The pair of the opposite angle. */
  function Neg(a: Unit): Unit {
    Unit(a.c, -a.s)
  }

  lemma AddIsUnit(a: Unit, b: Unit)
    requires IsUnit(a) && IsUnit(b)
    ensures IsUnit(Add(a, b)) && IsUnit(Neg(a))
  {
    AddIsUnitScalar(a.c, a.s, b.c, b.s);
    var sum := Add(a, b);
    assert sum.c == a.c * b.c - a.s * b.s && sum.s == a.s * b.c + a.c * b.s;
  }

  lemma AddIsUnitScalar(c: real, s: real, d: real, t: real)
    requires c * c + s * s == 1.0 && d * d + t * t == 1.0
    ensures (c * d - s * t) * (c * d - s * t) + (s * d + c * t) * (s * d + c * t) == 1.0
  {
    assert (c * d - s * t) * (c * d - s * t) + (s * d + c * t) * (s * d + c * t)
        == (c * c + s * s) * (d * d + t * t);
  }

  lemma AddAssoc(a: Unit, b: Unit, c: Unit)
    ensures Add(Add(a, b), c) == Add(a, Add(b, c))
  {
    hide Add;
    var l, r := Add(a, b), Add(b, c);
    AddEntries(a, b);
    AddEntries(b, c);
    AddEntries(l, c);
    AddEntries(a, r);
    AddAssocScalar(a.c, a.s, b.c, b.s, c.c, c.s, l.c, l.s, r.c, r.s);
    UnitByEntries(Add(l, c), Add(a, r));
  }

  lemma AddEntries(a: Unit, b: Unit)
    ensures Add(a, b).c == a.c * b.c - a.s * b.s && Add(a, b).s == a.s * b.c + a.c * b.s
  {
  }

  lemma UnitByEntries(a: Unit, b: Unit)
    requires a.c == b.c && a.s == b.s
    ensures a == b
  {
  }

  lemma AddAssocScalar(a: real, p: real, b: real, q: real, c: real, r: real, e: real, f: real, g: real, h: real)
    requires e == a * b - p * q && f == p * b + a * q && g == b * c - q * r && h == q * c + b * r
    ensures e * c - f * r == a * g - p * h && f * c + e * r == p * g + a * h
  {
  }

  lemma AddComm(a: Unit, b: Unit)
    ensures Add(a, b) == Add(b, a)
  {
  }

  lemma AddOne(a: Unit)
    ensures Add(a, ONE) == a && Add(ONE, a) == a
  {
  }

  lemma QuarterSums()
    ensures Add(QUARTER, QUARTER) == HALF && Add(HALF, HALF) == ONE
  {
  }

  lemma AddNeg(a: Unit)
    requires IsUnit(a)
    ensures Add(a, Neg(a)) == ONE && Add(Neg(a), a) == ONE
  {
  }

  /** Adding an angle and its opposite changes nothing. */
  lemma AddCancel(a: Unit, b: Unit)
    requires IsUnit(b)
    ensures Add(Add(a, b), Neg(b)) == a
    ensures Add(Add(a, Neg(b)), b) == a
  {
    AddAssoc(a, b, Neg(b));
    AddAssoc(a, Neg(b), b);
    AddNeg(b);
    AddOne(a);
  }

  // ----- Vectors -----------------------------------------------------------

  datatype Vec = Vec(x: real, y: real, z: real)

  const ZERO := Vec(0.0, 0.0, 0.0)
  const EX := Vec(1.0, 0.0, 0.0)
  const EY := Vec(0.0, 1.0, 0.0)
  const EZ := Vec(0.0, 0.0, 1.0)

  function Plus(a: Vec, b: Vec): Vec {
    Vec(a.x + b.x, a.y + b.y, a.z + b.z)
  }

  function Minus(a: Vec, b: Vec): Vec {
    Vec(a.x - b.x, a.y - b.y, a.z - b.z)
  }

  function Scale(k: real, a: Vec): Vec {
    Vec(k * a.x, k * a.y, k * a.z)
  }

  function Dot(a: Vec, b: Vec): real {
    a.x * b.x + a.y * b.y + a.z * b.z
  }

  function Cross(a: Vec, b: Vec): Vec {
    Vec(a.y * b.z - a.z * b.y, a.z * b.x - a.x * b.z, a.x * b.y - a.y * b.x)
  }

  lemma ScalePlus(k: real, a: Vec, b: Vec)
    ensures Scale(k, Plus(a, b)) == Plus(Scale(k, a), Scale(k, b))
  {
  }

  lemma ScaleSum(k: real, l: real, a: Vec)
    ensures Scale(k + l, a) == Plus(Scale(k, a), Scale(l, a))
  {
  }

  lemma ScaleScale(k: real, l: real, kl: real, a: Vec)
    requires kl == k * l
    ensures Scale(k, Scale(l, a)) == Scale(kl, a)
  {
  }

  /** Squared length of the planar part. */
  function PlanarSquare(v: Vec): real {
    v.x * v.x + v.y * v.y
  }

  // ----- Rotations of vectors ----------------------------------------------

  /** Rotation about the local z axis. */
  function RotZ(u: Unit, v: Vec): Vec {
    Vec(u.c * v.x - u.s * v.y, u.s * v.x + u.c * v.y, v.z)
  }

  /** Rotation about the local x axis. */
  function RotX(u: Unit, v: Vec): Vec {
    Vec(v.x, u.c * v.y - u.s * v.z, u.s * v.y + u.c * v.z)
  }

  /** Rotation about the local y axis. */
  function RotY(u: Unit, v: Vec): Vec {
    Vec(u.c * v.x + u.s * v.z, v.y, u.c * v.z - u.s * v.x)
  }

  /** Quarter turn about y, and the quarter turn back. */
  function TurnY(v: Vec): Vec {
    Vec(v.z, v.y, -v.x)
  }

  function BackY(v: Vec): Vec {
    Vec(-v.z, v.y, v.x)
  }

  lemma TurnIsRotY(v: Vec)
    ensures RotY(QUARTER, v) == TurnY(v)
    ensures RotY(Neg(QUARTER), v) == BackY(v)
    ensures RotY(ONE, v) == v
  {
  }

  lemma RotZAdd(a: Unit, b: Unit, v: Vec)
    ensures RotZ(Add(a, b), v) == RotZ(a, RotZ(b, v))
  {
    hide Add, RotZ;
    var w, sum := RotZ(b, v), Add(a, b);
    AddEntries(a, b);
    RotZEntries(b, v);
    RotZEntries(a, w);
    RotZEntries(sum, v);
    RotZAddScalar(a.c, a.s, b.c, b.s, v.x, v.y, w.x, w.y, sum.c, sum.s);
    VecByComponents(RotZ(sum, v), RotZ(a, w));
  }

  lemma RotZAddScalar(c: real, s: real, d: real, t: real, x: real, y: real, p: real, q: real, e: real, f: real)
    requires p == d * x - t * y && q == t * x + d * y && e == c * d - s * t && f == s * d + c * t
    ensures e * x - f * y == c * p - s * q && f * x + e * y == s * p + c * q
  {
  }

  lemma RotZPlus(u: Unit, a: Vec, b: Vec)
    ensures RotZ(u, Plus(a, b)) == Plus(RotZ(u, a), RotZ(u, b))
  {
    var sum := Plus(a, b);
    RotZPlusScalar(u.c, u.s, a.x, a.y, b.x, b.y, sum.x, sum.y);
  }

  lemma RotZPlusScalar(c: real, s: real, x: real, y: real, p: real, q: real, e: real, f: real)
    requires e == x + p && f == y + q
    ensures c * e - s * f == (c * x - s * y) + (c * p - s * q)
    ensures s * e + c * f == (s * x + c * y) + (s * p + c * q)
  {
  }

  lemma RotZScale(u: Unit, k: real, a: Vec)
    ensures RotZ(u, Scale(k, a)) == Scale(k, RotZ(u, a))
  {
    var scaled, turned := Scale(k, a), RotZ(u, a);
    RotZScaleScalar(u.c, u.s, k, a.x, a.y, scaled.x, scaled.y, turned.x, turned.y);
  }

  lemma RotZScaleScalar(c: real, s: real, k: real, x: real, y: real, e: real, f: real, p: real, q: real)
    requires e == k * x && f == k * y && p == c * x - s * y && q == s * x + c * y
    ensures c * e - s * f == k * p && s * e + c * f == k * q
  {
  }

  lemma RotZNeg(u: Unit, v: Vec)
    requires IsUnit(u)
    ensures RotZ(Neg(u), RotZ(u, v)) == v
    ensures RotZ(u, RotZ(Neg(u), v)) == v
  {
    RotZAdd(Neg(u), u, v);
    RotZAdd(u, Neg(u), v);
    AddNeg(u);
    RotZOne(v);
  }

  lemma RotZOne(v: Vec)
    ensures RotZ(ONE, v) == v
  {
  }

  /** Turning the wrist's z rotation out of the y quarter turns leaves an x rotation. */
  lemma TurnedRotation(u: Unit, v: Vec)
    ensures TurnY(RotZ(u, BackY(v))) == RotX(u, v)
  {
  }

  // ----- Matrices by columns -----------------------------------------------

  datatype Mat = Mat(i: Vec, j: Vec, k: Vec)

  const IDENTITY := Mat(EX, EY, EZ)

  function Act(m: Mat, v: Vec): Vec {
    Plus(Plus(Scale(v.x, m.i), Scale(v.y, m.j)), Scale(v.z, m.k))
  }

  function Product(a: Mat, b: Mat): Mat {
    Mat(Act(a, b.i), Act(a, b.j), Act(a, b.k))
  }

  function Transpose(m: Mat): Mat {
    Mat(Vec(m.i.x, m.j.x, m.k.x), Vec(m.i.y, m.j.y, m.k.y), Vec(m.i.z, m.j.z, m.k.z))
  }

  function Determinant(m: Mat): real {
    Dot(m.k, Cross(m.i, m.j))
  }

  /** The squared Frobenius norm of the difference of two matrices. */
  function SquaredDistance(a: Mat, b: Mat): real {
    SquaredNorm(Minus(a.i, b.i)) + SquaredNorm(Minus(a.j, b.j)) + SquaredNorm(Minus(a.k, b.k))
  }

  function SquaredNorm(v: Vec): real {
    Dot(v, v)
  }

  /** Every entry of two vectors differs by at most e. */
  predicate VecWithin(a: Vec, b: Vec, e: real) {
    && a.x - e <= b.x <= a.x + e && a.y - e <= b.y <= a.y + e && a.z - e <= b.z <= a.z + e
  }

  function RotZMat(u: Unit): Mat {
    Mat(Vec(u.c, u.s, 0.0), Vec(-u.s, u.c, 0.0), EZ)
  }

  function RotYMat(u: Unit): Mat {
    Mat(Vec(u.c, 0.0, -u.s), EY, Vec(u.s, 0.0, u.c))
  }

  lemma ActPlus(m: Mat, a: Vec, b: Vec)
    ensures Act(m, Plus(a, b)) == Plus(Act(m, a), Act(m, b))
  {
    ScaleSum(a.x, b.x, m.i);
    ScaleSum(a.y, b.y, m.j);
    ScaleSum(a.z, b.z, m.k);
  }

  lemma ActScale(m: Mat, l: real, a: Vec)
    ensures Act(m, Scale(l, a)) == Scale(l, Act(m, a))
  {
    var b := Scale(l, a);
    ScaleScale(l, a.x, b.x, m.i);
    ScaleScale(l, a.y, b.y, m.j);
    ScaleScale(l, a.z, b.z, m.k);
    ScalePlus(l, Plus(Scale(a.x, m.i), Scale(a.y, m.j)), Scale(a.z, m.k));
    ScalePlus(l, Scale(a.x, m.i), Scale(a.y, m.j));
  }

  lemma ActProduct(a: Mat, b: Mat, v: Vec)
    ensures Act(Product(a, b), v) == Act(a, Act(b, v))
  {
    ActPlus(a, Plus(Scale(v.x, b.i), Scale(v.y, b.j)), Scale(v.z, b.k));
    ActPlus(a, Scale(v.x, b.i), Scale(v.y, b.j));
    ActScale(a, v.x, b.i);
    ActScale(a, v.y, b.j);
    ActScale(a, v.z, b.k);
  }

  lemma ProductAssoc(a: Mat, b: Mat, c: Mat)
    ensures Product(Product(a, b), c) == Product(a, Product(b, c))
  {
    ActProduct(a, b, c.i);
    ActProduct(a, b, c.j);
    ActProduct(a, b, c.k);
  }

  lemma ActBasis(m: Mat)
    ensures Act(m, EX) == m.i && Act(m, EY) == m.j && Act(m, EZ) == m.k && Act(m, ZERO) == ZERO
  {
  }

  lemma ActIdentity(v: Vec)
    ensures Act(IDENTITY, v) == v
  {
  }

  lemma ActRotations(u: Unit, v: Vec)
    ensures Act(RotZMat(u), v) == RotZ(u, v)
    ensures Act(RotYMat(u), v) == RotY(u, v)
  {
  }

  // ----- Rotating every column ---------------------------------------------

  function TurnColumns(u: Unit, m: Mat): Mat {
    Mat(RotZ(u, m.i), RotZ(u, m.j), RotZ(u, m.k))
  }

  function TiltColumns(u: Unit, m: Mat): Mat {
    Mat(RotX(u, m.i), RotX(u, m.j), RotX(u, m.k))
  }

  lemma TurnColumnsAct(u: Unit, m: Mat, v: Vec)
    ensures Act(TurnColumns(u, m), v) == RotZ(u, Act(m, v))
  {
    RotZPlus(u, Plus(Scale(v.x, m.i), Scale(v.y, m.j)), Scale(v.z, m.k));
    RotZPlus(u, Scale(v.x, m.i), Scale(v.y, m.j));
    RotZScale(u, v.x, m.i);
    RotZScale(u, v.y, m.j);
    RotZScale(u, v.z, m.k);
  }

  /** An x rotation is a z rotation between quarter turns, so it is linear too. */
  lemma TiltColumnsAct(u: Unit, m: Mat, v: Vec)
    ensures Act(TiltColumns(u, m), v) == RotX(u, Act(m, v))
  {
    var b := Mat(BackY(m.i), BackY(m.j), BackY(m.k));
    TurnColumnsAct(u, b, v);
    TurnedRotation(u, m.i);
    TurnedRotation(u, m.j);
    TurnedRotation(u, m.k);
    TurnedRotation(u, Act(m, v));
    QuarterColumns(m, v);
    QuarterColumns(TurnColumns(u, b), v);
  }

  lemma QuarterColumns(m: Mat, v: Vec)
    ensures Act(Mat(TurnY(m.i), TurnY(m.j), TurnY(m.k)), v) == TurnY(Act(m, v))
    ensures Act(Mat(BackY(m.i), BackY(m.j), BackY(m.k)), v) == BackY(Act(m, v))
  {
  }

  // ----- Proper rotations --------------------------------------------------

  /** Orthonormal columns and determinant one: the exact reading of the rigid-pose check. */
  predicate IsRotation(m: Mat) {
    && Dot(m.i, m.i) == 1.0 && Dot(m.j, m.j) == 1.0 && Dot(m.k, m.k) == 1.0
    && Dot(m.i, m.j) == 0.0 && Dot(m.j, m.k) == 0.0 && Dot(m.k, m.i) == 0.0
    && Determinant(m) == 1.0
  }

  /** |a x b|^2 = |a|^2 |b|^2 - (a.b)^2. */
  lemma Lagrange(a: Vec, b: Vec)
    ensures Dot(Cross(a, b), Cross(a, b)) == Dot(a, a) * Dot(b, b) - Dot(a, b) * Dot(a, b)
  {
    var c := Cross(a, b);
    LagrangeScalar(a.x, a.y, a.z, b.x, b.y, b.z, c.x, c.y, c.z, Dot(a, a), Dot(b, b), Dot(a, b));
  }

  lemma LagrangeScalar(x: real, y: real, z: real, p: real, q: real, r: real,
                       e: real, f: real, g: real, n: real, m: real, d: real)
    requires e == y * r - z * q && f == z * p - x * r && g == x * q - y * p
    requires n == x * x + y * y + z * z && m == p * p + q * q + r * r && d == x * p + y * q + z * r
    ensures e * e + f * f + g * g == n * m - d * d
  {
  }

  function Sqr(x: real): real {
    x * x
  }

  lemma ZeroSquares(x: real, y: real, z: real)
    requires Sqr(x) + Sqr(y) + Sqr(z) == 0.0
    ensures x == 0.0 && y == 0.0 && z == 0.0
  {
    SquareSign(x);
    SquareSign(y);
    SquareSign(z);
  }

  lemma SquareSign(x: real)
    ensures Sqr(x) >= 0.0
    ensures x != 0.0 ==> Sqr(x) > 0.0
  {
    if x < 0.0 {
      PositiveProduct(-x, -x, Sqr(x));
    } else if x > 0.0 {
      PositiveProduct(x, x, Sqr(x));
    }
  }

  lemma PositiveProduct(x: real, y: real, p: real)
    requires x > 0.0 && y > 0.0 && p == x * y
    ensures p > 0.0
  {
  }

  lemma NonNegative(a: real, b: real)
    requires a >= 0.0 && b >= 0.0
    ensures a * b >= 0.0
  {
  }

  /** Two unit vectors with scalar product one coincide. */
  lemma UnitVectorsMeet(a: Vec, b: Vec)
    requires Dot(a, a) == 1.0 && Dot(b, b) == 1.0 && Dot(a, b) == 1.0
    ensures a == b
  {
    var d := Minus(a, b);
    MeetScalar(a.x, a.y, a.z, b.x, b.y, b.z);
    ZeroSquares(a.x - b.x, a.y - b.y, a.z - b.z);
  }

  lemma MeetScalar(x: real, y: real, z: real, p: real, q: real, r: real)
    requires x * x + y * y + z * z == 1.0 && p * p + q * q + r * r == 1.0 && x * p + y * q + z * r == 1.0
    ensures Sqr(x - p) + Sqr(y - q) + Sqr(z - r) == 0.0
  {
  }

  /** The triple product is the same from each of the three columns. */
  lemma TripleProduct(a: Vec, b: Vec, c: Vec)
    ensures Dot(c, Cross(a, b)) == Dot(a, Cross(b, c)) == Dot(b, Cross(c, a))
  {
    TripleScalar(a, b, c, Cross(a, b), Cross(b, c));
    TripleScalar(b, c, a, Cross(b, c), Cross(c, a));
  }

  lemma TripleScalar(a: Vec, b: Vec, c: Vec, ab: Vec, bc: Vec)
    requires ab == Cross(a, b) && bc == Cross(b, c)
    ensures Dot(c, ab) == Dot(a, bc)
  {
    TripleExpanded(a.x, a.y, a.z, b.x, b.y, b.z, c.x, c.y, c.z, ab.x, ab.y, ab.z, bc.x, bc.y, bc.z);
  }

  lemma TripleExpanded(x: real, y: real, z: real, p: real, q: real, r: real, u: real, v: real, w: real,
                       e: real, f: real, g: real, k: real, l: real, m: real)
    requires e == y * r - z * q && f == z * p - x * r && g == x * q - y * p
    requires k == q * w - r * v && l == r * u - p * w && m == p * v - q * u
    ensures u * e + v * f + w * g == x * k + y * l + z * m
  {
  }

  /** A rotation is its own cofactor matrix: each column is the cross product of the next two. */
  lemma RotationCofactors(m: Mat)
    requires IsRotation(m)
    ensures m.k == Cross(m.i, m.j) && m.i == Cross(m.j, m.k) && m.j == Cross(m.k, m.i)
  {
    TripleProduct(m.i, m.j, m.k);
    CofactorColumn(m.i, m.j, m.k);
    CofactorColumn(m.j, m.k, m.i);
    CofactorColumn(m.k, m.i, m.j);
  }

  lemma CofactorColumn(a: Vec, b: Vec, c: Vec)
    requires Dot(a, a) == 1.0 && Dot(b, b) == 1.0 && Dot(c, c) == 1.0 && Dot(a, b) == 0.0
    requires Dot(c, Cross(a, b)) == 1.0
    ensures c == Cross(a, b)
  {
    Lagrange(a, b);
    UnitVectorsMeet(c, Cross(a, b));
  }

  /** A rotation and its transpose undo each other. */
  lemma TransposeInverts(m: Mat, v: Vec)
    requires IsRotation(m)
    ensures Act(m, Act(Transpose(m), v)) == v
    ensures Act(Transpose(m), Act(m, v)) == v
  {
    RotationCofactors(m);
    BasisExpansion(m, v);
    Coordinates(m, v, Act(m, v));
    TransposeAct(m, v);
    TransposeAct(m, Act(m, v));
  }

  lemma TransposeAct(m: Mat, v: Vec)
    ensures Act(Transpose(m), v) == Vec(Dot(m.i, v), Dot(m.j, v), Dot(m.k, v))
  {
  }

  /** A vector is the sum of its projections on the columns of a rotation. */
  lemma BasisExpansion(m: Mat, v: Vec)
    requires IsRotation(m)
    requires m.k == Cross(m.i, m.j) && m.i == Cross(m.j, m.k) && m.j == Cross(m.k, m.i)
    ensures Act(m, Vec(Dot(m.i, v), Dot(m.j, v), Dot(m.k, v))) == v
  {
    hide Dot, Cross, Determinant, Act;
    var i, j, k := m.i, m.j, m.k;
    Cramer(v, i, j, k);
    CramerCycled(v, i, j, k);
    CycleKeeps(i, j);
    CycleKeeps(j, k);
    CycleKeeps(k, i);
    CycleKeeps(k, k);
    CycleKeeps(i, v);
    CycleKeeps(j, v);
    CycleKeeps(k, v);
    CramerCycled(Cycle(v), Cycle(i), Cycle(j), Cycle(k));
    ActProjected(m, v, Dot(i, v), Dot(j, v), Dot(k, v));
  }

  lemma ActProjected(m: Mat, v: Vec, a: real, b: real, c: real)
    requires a * m.i.x + b * m.j.x + c * m.k.x == v.x
    requires a * m.i.y + b * m.j.y + c * m.k.y == v.y
    requires a * m.i.z + b * m.j.z + c * m.k.z == v.z
    ensures Act(m, Vec(a, b, c)) == v
  {
  }

  /** Cramer's rule for the first component, with the cofactors equal to the columns themselves. */
  lemma Cramer(v: Vec, i: Vec, j: Vec, k: Vec)
    requires k == Cross(i, j) && i == Cross(j, k) && j == Cross(k, i)
    requires Dot(k, k) == 1.0
    ensures Dot(i, v) * i.x + Dot(j, v) * j.x + Dot(k, v) * k.x == v.x
  {
    hide Cross;
    CrossEntries(i, j);
    CrossEntries(j, k);
    CrossEntries(k, i);
    CramerRow(v.x, v.y, v.z, i.x, i.y, i.z, j.x, j.y, j.z, k.x, k.y, k.z, Dot(i, v), Dot(j, v), Dot(k, v));
  }

  lemma CrossEntries(a: Vec, b: Vec)
    ensures Cross(a, b).x == a.y * b.z - a.z * b.y && Cross(a, b).y == a.z * b.x - a.x * b.z
    ensures Cross(a, b).z == a.x * b.y - a.y * b.x
  {
  }

  function Cycle(v: Vec): Vec {
    Vec(v.y, v.z, v.x)
  }

  lemma CycleKeeps(a: Vec, b: Vec)
    ensures Dot(Cycle(a), Cycle(b)) == Dot(a, b)
    ensures Cross(Cycle(a), Cycle(b)) == Cycle(Cross(a, b))
  {
  }

  lemma CramerCycled(v: Vec, i: Vec, j: Vec, k: Vec)
    requires k == Cross(i, j) && i == Cross(j, k) && j == Cross(k, i)
    requires Dot(k, k) == 1.0
    ensures Dot(i, v) * i.y + Dot(j, v) * j.y + Dot(k, v) * k.y == v.y
  {
    CycleKeeps(i, j);
    CycleKeeps(j, k);
    CycleKeeps(k, i);
    CycleKeeps(k, k);
    CycleKeeps(i, v);
    CycleKeeps(j, v);
    CycleKeeps(k, v);
    Cramer(Cycle(v), Cycle(i), Cycle(j), Cycle(k));
  }

  lemma CramerRow(x: real, y: real, z: real, ix: real, iy: real, iz: real, jx: real, jy: real, jz: real,
                  kx: real, ky: real, kz: real, di: real, dj: real, dk: real)
    requires kx == iy * jz - iz * jy && ky == iz * jx - ix * jz && kz == ix * jy - iy * jx
    requires ix == jy * kz - jz * ky && jx == ky * iz - kz * iy
    requires di == ix * x + iy * y + iz * z && dj == jx * x + jy * y + jz * z && dk == kx * x + ky * y + kz * z
    requires kx * kx + ky * ky + kz * kz == 1.0
    ensures di * ix + dj * jx + dk * kx == x
  {
    var det := kx * (iy * jz - iz * jy) + ky * (iz * jx - ix * jz) + kz * (ix * jy - iy * jx);
    CramerIdentity(x, y, z, ix, iy, iz, jx, jy, jz, kx, ky, kz);
    CramerSubstitute(x, det, di, dj, dk, ix, jx, kx, jy * kz - jz * ky, ky * iz - kz * iy, iy * jz - iz * jy);
  }

  lemma CramerIdentity(x: real, y: real, z: real, ix: real, iy: real, iz: real, jx: real, jy: real, jz: real,
                       kx: real, ky: real, kz: real)
    ensures (ix * x + iy * y + iz * z) * (jy * kz - jz * ky) + (jx * x + jy * y + jz * z) * (ky * iz - kz * iy)
            + (kx * x + ky * y + kz * z) * (iy * jz - iz * jy)
         == x * (kx * (iy * jz - iz * jy) + ky * (iz * jx - ix * jz) + kz * (ix * jy - iy * jx))
  {
  }

  lemma CramerSubstitute(x: real, det: real, di: real, dj: real, dk: real, ix: real, jx: real, kx: real,
                         ci: real, cj: real, ck: real)
    requires ix == ci && jx == cj && kx == ck && det == 1.0
    requires di * ci + dj * cj + dk * ck == x * det
    ensures di * ix + dj * jx + dk * kx == x
  {
  }

  lemma Coordinates(m: Mat, v: Vec, w: Vec)
    requires IsRotation(m) && w == Act(m, v)
    ensures Vec(Dot(m.i, w), Dot(m.j, w), Dot(m.k, w)) == v
  {
    DotAct(m, v, m.i);
    DotAct(m, v, m.j);
    DotAct(m, v, m.k);
    DotComm(m.i, m.j);
    DotComm(m.j, m.k);
    DotComm(m.k, m.i);
  }

  lemma DotComm(a: Vec, b: Vec)
    ensures Dot(a, b) == Dot(b, a)
  {
  }

  lemma DotPlus(a: Vec, b: Vec, c: Vec)
    ensures Dot(a, Plus(b, c)) == Dot(a, b) + Dot(a, c)
  {
  }

  lemma DotScale(a: Vec, k: real, b: Vec)
    ensures Dot(a, Scale(k, b)) == k * Dot(a, b)
  {
    var c := Scale(k, b);
    DotScaleScalar(a.x, a.y, a.z, k, b.x, b.y, b.z, c.x, c.y, c.z);
  }

  lemma DotScaleScalar(a: real, b: real, c: real, k: real, x: real, y: real, z: real, p: real, q: real, r: real)
    requires p == k * x && q == k * y && r == k * z
    ensures a * p + b * q + c * r == k * (a * x + b * y + c * z)
  {
  }

  lemma DotAct(m: Mat, v: Vec, a: Vec)
    ensures Dot(a, Act(m, v)) == v.x * Dot(a, m.i) + v.y * Dot(a, m.j) + v.z * Dot(a, m.k)
  {
    hide Dot, Plus, Scale;
    DotPlus(a, Plus(Scale(v.x, m.i), Scale(v.y, m.j)), Scale(v.z, m.k));
    DotPlus(a, Scale(v.x, m.i), Scale(v.y, m.j));
    DotScale(a, v.x, m.i);
    DotScale(a, v.y, m.j);
    DotScale(a, v.z, m.k);
  }

  /** Rotating about z keeps scalar and vector products. */
  lemma RotZDot(u: Unit, a: Vec, b: Vec)
    requires IsUnit(u)
    ensures Dot(RotZ(u, a), RotZ(u, b)) == Dot(a, b)
  {
    var p, q := RotZ(u, a), RotZ(u, b);
    DotScalar(u.c, u.s, a.x, a.y, b.x, b.y, p.x, p.y, q.x, q.y);
  }

  lemma DotScalar(c: real, s: real, x: real, y: real, z: real, w: real, e: real, f: real, g: real, h: real)
    requires c * c + s * s == 1.0
    requires e == c * x - s * y && f == s * x + c * y && g == c * z - s * w && h == s * z + c * w
    ensures e * g + f * h == x * z + y * w
  {
    assert (c * x - s * y) * (c * z - s * w) + (s * x + c * y) * (s * z + c * w)
        == (c * c + s * s) * (x * z + y * w);
  }

  lemma RotZCross(u: Unit, a: Vec, b: Vec)
    requires IsUnit(u)
    ensures Cross(RotZ(u, a), RotZ(u, b)) == RotZ(u, Cross(a, b))
  {
    hide *;
    RotZCrossPlanar(u, a, b);
    RotZCrossAxial(u, a, b);
    VecByComponents(Cross(RotZ(u, a), RotZ(u, b)), RotZ(u, Cross(a, b)));
  }

  lemma VecByComponents(a: Vec, b: Vec)
    requires a.x == b.x && a.y == b.y && a.z == b.z
    ensures a == b
  {
  }

  lemma RotZCrossPlanar(u: Unit, a: Vec, b: Vec)
    ensures Cross(RotZ(u, a), RotZ(u, b)).x == RotZ(u, Cross(a, b)).x
    ensures Cross(RotZ(u, a), RotZ(u, b)).y == RotZ(u, Cross(a, b)).y
  {
    hide RotZ, Cross;
    var p, q, n := RotZ(u, a), RotZ(u, b), Cross(a, b);
    RotZEntries(u, a);
    RotZEntries(u, b);
    RotZEntries(u, n);
    CrossEntries(p, q);
    CrossEntries(a, b);
    CrossPlanar(u.c, u.s, a.x, a.y, a.z, b.x, b.y, b.z, p.x, p.y, q.x, q.y, n.x, n.y);
  }

  lemma RotZEntries(u: Unit, v: Vec)
    ensures RotZ(u, v).x == u.c * v.x - u.s * v.y && RotZ(u, v).y == u.s * v.x + u.c * v.y && RotZ(u, v).z == v.z
  {
  }

  lemma RotZCrossAxial(u: Unit, a: Vec, b: Vec)
    requires IsUnit(u)
    ensures Cross(RotZ(u, a), RotZ(u, b)).z == RotZ(u, Cross(a, b)).z
  {
    hide Cross, RotZ;
    var p, q, n := RotZ(u, a), RotZ(u, b), Cross(a, b);
    RotZEntries(u, a);
    RotZEntries(u, b);
    RotZEntries(u, n);
    CrossEntries(a, b);
    CrossEntries(p, q);
    CrossAxial(u.c, u.s, a.x, a.y, b.x, b.y, p.x, p.y, q.x, q.y, u.c * u.c + u.s * u.s, n.z);
  }

  lemma CrossAxial(c: real, s: real, x: real, y: real, u: real, v: real,
                   px: real, py: real, qx: real, qy: real, n: real, nz: real)
    requires px == c * x - s * y && py == s * x + c * y && qx == c * u - s * v && qy == s * u + c * v
    requires n == c * c + s * s && nz == x * v - y * u && n == 1.0
    ensures px * qy - py * qx == nz
  {
    CrossAxialIdentity(c, s, x, y, u, v);
    AxialClose(n, nz, (c * x - s * y) * (s * u + c * v) - (s * x + c * y) * (c * u - s * v));
  }

  lemma CrossAxialIdentity(c: real, s: real, x: real, y: real, u: real, v: real)
    ensures (c * x - s * y) * (s * u + c * v) - (s * x + c * y) * (c * u - s * v)
         == (c * c + s * s) * (x * v - y * u)
  {
  }

  lemma AxialClose(n: real, a: real, b: real)
    requires n == 1.0 && b == n * a
    ensures b == a
  {
  }

  lemma CrossPlanar(c: real, s: real, x: real, y: real, z: real, u: real, v: real, w: real,
                    px: real, py: real, qx: real, qy: real, nx: real, ny: real)
    requires px == c * x - s * y && py == s * x + c * y && qx == c * u - s * v && qy == s * u + c * v
    requires nx == y * w - z * v && ny == z * u - x * w
    ensures py * w - z * qy == c * nx - s * ny
    ensures z * qx - px * w == s * nx + c * ny
  {
  }

  lemma TurnColumnsIsRotation(u: Unit, m: Mat)
    requires IsUnit(u) && IsRotation(m)
    ensures IsRotation(TurnColumns(u, m))
  {
    hide IsUnit, RotZ, Dot, Cross;
    RotZDot(u, m.i, m.i);
    RotZDot(u, m.j, m.j);
    RotZDot(u, m.k, m.k);
    RotZDot(u, m.i, m.j);
    RotZDot(u, m.j, m.k);
    RotZDot(u, m.k, m.i);
    RotZCross(u, m.i, m.j);
    RotZDot(u, m.k, Cross(m.i, m.j));
  }

  lemma CrossTurned(p: Vec, q: Vec)
    ensures Cross(TurnY(p), TurnY(q)) == TurnY(Cross(p, q))
    ensures Cross(BackY(p), BackY(q)) == BackY(Cross(p, q))
  {
  }

  lemma DotTurned(p: Vec, q: Vec)
    ensures Dot(TurnY(p), TurnY(q)) == Dot(p, q) && Dot(BackY(p), BackY(q)) == Dot(p, q)
  {
  }

  /** The quarter turns about y are rotations. */
  lemma QuarterIsRotation()
    ensures IsRotation(RotYMat(QUARTER)) && RotYMat(QUARTER) == Mat(Vec(0.0, 0.0, -1.0), EY, EX)
    ensures IsRotation(RotYMat(Neg(QUARTER))) && RotYMat(Neg(QUARTER)) == Mat(EZ, EY, Vec(-1.0, 0.0, 0.0))
    ensures IsRotation(RotYMat(ONE)) && RotYMat(ONE) == IDENTITY
  {
    hide Dot, Cross;
    IdentityIsRotation();
    DotTurned(EX, EX);
    DotTurned(EY, EY);
    DotTurned(EZ, EZ);
    DotTurned(EX, EY);
    DotTurned(EY, EZ);
    DotTurned(EZ, EX);
    CrossTurned(EX, EY);
    DotTurned(EZ, Cross(EX, EY));
  }

  lemma RotZMatIsRotation(u: Unit)
    requires IsUnit(u)
    ensures IsRotation(RotZMat(u))
    ensures Transpose(RotZMat(u)) == RotZMat(Neg(u))
  {
    hide IsUnit, IsRotation, RotZ;
    IdentityIsRotation();
    TurnColumnsIsRotation(u, IDENTITY);
    RotZBasis(u);
  }

  lemma IdentityIsRotation()
    ensures IsRotation(IDENTITY)
  {
  }

  lemma RotZBasis(u: Unit)
    ensures TurnColumns(u, IDENTITY) == RotZMat(u)
  {
  }

  // ----- Rotations form a group --------------------------------------------

  lemma CrossPlus(a: Vec, b: Vec, c: Vec)
    ensures Cross(a, Plus(b, c)) == Plus(Cross(a, b), Cross(a, c))
  {
    hide Cross, Plus;
    var s := Plus(b, c);
    SumEntries(b, c);
    SumEntries(Cross(a, b), Cross(a, c));
    CrossEntries(a, s);
    CrossEntries(a, b);
    CrossEntries(a, c);
    CrossPlusScalar(a.y, a.z, b.y, b.z, c.y, c.z, s.y, s.z);
    CrossPlusScalar(a.z, a.x, b.z, b.x, c.z, c.x, s.z, s.x);
    CrossPlusScalar(a.x, a.y, b.x, b.y, c.x, c.y, s.x, s.y);
    VecByComponents(Cross(a, s), Plus(Cross(a, b), Cross(a, c)));
  }

  lemma SumEntries(a: Vec, b: Vec)
    ensures Plus(a, b).x == a.x + b.x && Plus(a, b).y == a.y + b.y && Plus(a, b).z == a.z + b.z
  {
  }

  lemma CrossPlusScalar(p: real, q: real, x: real, y: real, u: real, v: real, e: real, f: real)
    requires e == x + u && f == y + v
    ensures p * f - q * e == (p * y - q * x) + (p * v - q * u)
  {
  }

  lemma CrossScale(a: Vec, k: real, b: Vec)
    ensures Cross(a, Scale(k, b)) == Scale(k, Cross(a, b))
  {
    hide Cross, Scale;
    var s, n := Scale(k, b), Cross(a, b);
    ScaleEntries(k, b);
    ScaleEntries(k, n);
    CrossEntries(a, s);
    CrossEntries(a, b);
    CrossScaleScalar(a.y, a.z, k, b.y, b.z, s.y, s.z, n.x);
    CrossScaleScalar(a.z, a.x, k, b.z, b.x, s.z, s.x, n.y);
    CrossScaleScalar(a.x, a.y, k, b.x, b.y, s.x, s.y, n.z);
    VecByComponents(Cross(a, s), Scale(k, n));
  }

  lemma ScaleEntries(k: real, a: Vec)
    ensures Scale(k, a).x == k * a.x && Scale(k, a).y == k * a.y && Scale(k, a).z == k * a.z
  {
  }

  lemma CrossScaleScalar(p: real, q: real, k: real, x: real, y: real, e: real, f: real, n: real)
    requires e == k * x && f == k * y && n == p * y - q * x
    ensures p * f - q * e == k * n
  {
  }

  lemma CrossAct(a: Vec, m: Mat, v: Vec)
    ensures Cross(a, Act(m, v)) == Act(Mat(Cross(a, m.i), Cross(a, m.j), Cross(a, m.k)), v)
  {
    hide Cross, Plus, Scale;
    CrossPlus(a, Plus(Scale(v.x, m.i), Scale(v.y, m.j)), Scale(v.z, m.k));
    CrossPlus(a, Scale(v.x, m.i), Scale(v.y, m.j));
    CrossScale(a, v.x, m.i);
    CrossScale(a, v.y, m.j);
    CrossScale(a, v.z, m.k);
  }

  lemma CrossSelf(a: Vec, b: Vec)
    ensures Cross(a, a) == ZERO && Cross(a, b) == Scale(-1.0, Cross(b, a))
  {
  }

  /** A rotation carries vector products along. */
  lemma CrossOfActs(m: Mat, x: Vec, y: Vec)
    requires IsRotation(m)
    ensures Cross(Act(m, x), Act(m, y)) == Act(m, Cross(x, y))
  {
    hide IsRotation, Act, Cross, Scale;
    var a := Act(m, x);
    RotationCofactors(m);
    CrossAct(a, m, y);
    CrossColumn(m.i, m.j, m.k, m, x);
    CrossColumn(m.j, m.k, m.i, m, x);
    CrossColumn(m.k, m.i, m.j, m, x);
    CrossAct(m.i, m, x);
    CrossAct(m.j, m, x);
    CrossAct(m.k, m, x);
    SkewAct(m, x, y);
  }

  lemma CrossColumn(i: Vec, j: Vec, k: Vec, m: Mat, x: Vec)
    requires k == Cross(i, j) && j == Cross(k, i)
    ensures Cross(Act(m, x), i) == Scale(-1.0, Cross(i, Act(m, x)))
    ensures Cross(i, i) == ZERO && Cross(i, k) == Scale(-1.0, j)
  {
    hide Act, Cross, Scale;
    CrossSelf(Act(m, x), i);
    CrossSelf(i, k);
  }

  lemma SkewAct(m: Mat, x: Vec, y: Vec)
    ensures Act(Mat(Scale(-1.0, Act(Mat(ZERO, m.k, Scale(-1.0, m.j)), x)),
                    Scale(-1.0, Act(Mat(Scale(-1.0, m.k), ZERO, m.i), x)),
                    Scale(-1.0, Act(Mat(m.j, Scale(-1.0, m.i), ZERO), x))), y)
         == Act(m, Cross(x, y))
  {
    hide Act, Cross, Scale;
    SkewFirst(m, x);
    SkewSecond(m, x);
    SkewThird(m, x);
    SkewColumns(m, x, y, Scale(-1.0, Act(Mat(ZERO, m.k, Scale(-1.0, m.j)), x)),
                Scale(-1.0, Act(Mat(Scale(-1.0, m.k), ZERO, m.i), x)),
                Scale(-1.0, Act(Mat(m.j, Scale(-1.0, m.i), ZERO), x)));
  }

  lemma SkewColumns(m: Mat, x: Vec, y: Vec, e: Vec, f: Vec, g: Vec)
    requires e == Vec(x.z * m.j.x - x.y * m.k.x, x.z * m.j.y - x.y * m.k.y, x.z * m.j.z - x.y * m.k.z)
    requires f == Vec(x.x * m.k.x - x.z * m.i.x, x.x * m.k.y - x.z * m.i.y, x.x * m.k.z - x.z * m.i.z)
    requires g == Vec(x.y * m.i.x - x.x * m.j.x, x.y * m.i.y - x.x * m.j.y, x.y * m.i.z - x.x * m.j.z)
    ensures Act(Mat(e, f, g), y) == Act(m, Cross(x, y))
  {
    hide Act, Cross;
    var n := Cross(x, y);
    ActEntries(Mat(e, f, g), y);
    ActEntries(m, n);
    SkewRow(m.i.x, m.j.x, m.k.x, x, y, e.x, f.x, g.x);
    SkewRow(m.i.y, m.j.y, m.k.y, x, y, e.y, f.y, g.y);
    SkewRow(m.i.z, m.j.z, m.k.z, x, y, e.z, f.z, g.z);
    VecByComponents(Act(Mat(e, f, g), y), Act(m, n));
  }

  lemma ActEntries(m: Mat, v: Vec)
    ensures Act(m, v) == Vec(v.x * m.i.x + v.y * m.j.x + v.z * m.k.x, v.x * m.i.y + v.y * m.j.y + v.z * m.k.y,
                             v.x * m.i.z + v.y * m.j.z + v.z * m.k.z)
  {
  }

  lemma SkewRow(i: real, j: real, k: real, x: Vec, y: Vec, e: real, f: real, g: real)
    requires e == x.z * j - x.y * k && f == x.x * k - x.z * i && g == x.y * i - x.x * j
    ensures var n := Cross(x, y); y.x * e + y.y * f + y.z * g == n.x * i + n.y * j + n.z * k
  {
    var n := Cross(x, y);
    SkewScalar(i, j, k, x.x, x.y, x.z, y.x, y.y, y.z, n.x, n.y, n.z, e, f, g);
  }

  lemma SkewFirst(m: Mat, x: Vec)
    ensures Scale(-1.0, Act(Mat(ZERO, m.k, Scale(-1.0, m.j)), x))
         == Vec(x.z * m.j.x - x.y * m.k.x, x.z * m.j.y - x.y * m.k.y, x.z * m.j.z - x.y * m.k.z)
  {
  }

  lemma SkewSecond(m: Mat, x: Vec)
    ensures Scale(-1.0, Act(Mat(Scale(-1.0, m.k), ZERO, m.i), x))
         == Vec(x.x * m.k.x - x.z * m.i.x, x.x * m.k.y - x.z * m.i.y, x.x * m.k.z - x.z * m.i.z)
  {
  }

  lemma SkewThird(m: Mat, x: Vec)
    ensures Scale(-1.0, Act(Mat(m.j, Scale(-1.0, m.i), ZERO), x))
         == Vec(x.y * m.i.x - x.x * m.j.x, x.y * m.i.y - x.x * m.j.y, x.y * m.i.z - x.x * m.j.z)
  {
  }

  lemma SkewScalar(i: real, j: real, k: real, a: real, b: real, c: real, x: real, y: real, z: real,
                   p: real, q: real, r: real, e: real, f: real, g: real)
    requires p == b * z - c * y && q == c * x - a * z && r == a * y - b * x
    requires e == c * j - b * k && f == a * k - c * i && g == b * i - a * j
    ensures x * e + y * f + z * g == p * i + q * j + r * k
  {
  }

  /** Lengths and angles are kept. */
  lemma DotOfActs(m: Mat, x: Vec, y: Vec)
    requires IsRotation(m)
    ensures Dot(Act(m, x), Act(m, y)) == Dot(x, y)
  {
    hide IsRotation, Act;
    var w := Act(m, y);
    Coordinates(m, y, w);
    DotAct(m, x, w);
    DotComm(w, Act(m, x));
    DotComm(w, m.i);
    DotComm(w, m.j);
    DotComm(w, m.k);
  }

  lemma ProductIsRotation(a: Mat, b: Mat)
    requires IsRotation(a) && IsRotation(b)
    ensures IsRotation(Product(a, b))
  {
    hide Act, Dot, Cross;
    DotOfActs(a, b.i, b.i);
    DotOfActs(a, b.j, b.j);
    DotOfActs(a, b.k, b.k);
    DotOfActs(a, b.i, b.j);
    DotOfActs(a, b.j, b.k);
    DotOfActs(a, b.k, b.i);
    CrossOfActs(a, b.i, b.j);
    DotOfActs(a, b.k, Cross(b.i, b.j));
  }

  lemma TransposeIsRotation(m: Mat)
    requires IsRotation(m)
    ensures IsRotation(Transpose(m))
  {
    hide Act, Dot, Cross;
    var t := Transpose(m);
    TransposeInverts(m, EX);
    TransposeInverts(m, EY);
    TransposeInverts(m, EZ);
    ActBasis(t);
    TransposeAct(t, t.i);
    TransposeAct(t, t.j);
    TransposeAct(t, t.k);
    assert Transpose(t) == m;
    TransposeDeterminant(m);
  }

  lemma TransposeDeterminant(m: Mat)
    ensures Determinant(Transpose(m)) == Determinant(m)
  {
    var t := Transpose(m);
    var c, d := Cross(m.i, m.j), Cross(t.i, t.j);
    TransposeDeterminantScalar(m.i.x, m.i.y, m.i.z, m.j.x, m.j.y, m.j.z, m.k.x, m.k.y, m.k.z,
                               c.x, c.y, c.z, d.x, d.y, d.z);
  }

  lemma TransposeDeterminantScalar(a: real, b: real, c: real, d: real, e: real, f: real, g: real, h: real, i: real,
                                   p: real, q: real, r: real, u: real, v: real, w: real)
    requires p == b * f - c * e && q == c * d - a * f && r == a * e - b * d
    requires u == d * h - g * e && v == g * b - a * h && w == a * e - d * b
    ensures c * u + f * v + i * w == g * p + h * q + i * r
  {
  }

  // ----- Rigid poses -------------------------------------------------------

  /** A homogeneous transform whose last row is (0, 0, 0, 1). */
  datatype Pose = Pose(r: Mat, p: Vec)

  const ORIGIN := Pose(IDENTITY, ZERO)

  function Compose(a: Pose, b: Pose): Pose {
    Pose(Product(a.r, b.r), Plus(Act(a.r, b.p), a.p))
  }

  /** Image of a point. */
  function Apply(a: Pose, v: Vec): Vec {
    Plus(Act(a.r, v), a.p)
  }

  /** Transposed rotation and turned-back translation. */
  function Inverse(a: Pose): Pose {
    Pose(Transpose(a.r), Scale(-1.0, Act(Transpose(a.r), a.p)))
  }

  predicate IsRigid(a: Pose) {
    IsRotation(a.r)
  }

  function RotZPose(u: Unit): Pose {
    Pose(RotZMat(u), ZERO)
  }

  lemma ApplyCompose(a: Pose, b: Pose, v: Vec)
    ensures Apply(Compose(a, b), v) == Apply(a, Apply(b, v))
  {
    ActProduct(a.r, b.r, v);
    ActPlus(a.r, Act(b.r, v), b.p);
  }

  lemma ComposeAssoc(a: Pose, b: Pose, c: Pose)
    ensures Compose(Compose(a, b), c) == Compose(a, Compose(b, c))
  {
    ProductAssoc(a.r, b.r, c.r);
    ActProduct(a.r, b.r, c.p);
    ActPlus(a.r, Act(b.r, c.p), b.p);
  }

  lemma ComposeOrigin(a: Pose)
    ensures Compose(ORIGIN, a) == a && Compose(a, ORIGIN) == a
  {
    ActIdentity(a.r.i);
    ActIdentity(a.r.j);
    ActIdentity(a.r.k);
    ActIdentity(a.p);
    ActBasis(a.r);
  }

  lemma ComposeIsRigid(a: Pose, b: Pose)
    requires IsRigid(a) && IsRigid(b)
    ensures IsRigid(Compose(a, b)) && IsRigid(Inverse(a))
  {
    hide IsRotation, Act;
    ProductIsRotation(a.r, b.r);
    TransposeIsRotation(a.r);
  }

  lemma ComposeInverse(a: Pose)
    requires IsRigid(a)
    ensures Compose(a, Inverse(a)) == ORIGIN && Compose(Inverse(a), a) == ORIGIN
  {
    var t := Transpose(a.r);
    TransposeInverts(a.r, EX);
    TransposeInverts(a.r, EY);
    TransposeInverts(a.r, EZ);
    TransposeInverts(a.r, a.p);
    ActBasis(a.r);
    ActBasis(t);
    ActScale(a.r, -1.0, Act(t, a.p));
  }

  /** A pose is determined by the images of the origin and of the three basis points. */
  lemma PoseByAction(a: Pose, b: Pose)
    requires forall v :: Apply(a, v) == Apply(b, v)
    ensures a == b
  {
    ActBasis(a.r);
    ActBasis(b.r);
    assert Apply(a, ZERO) == Apply(b, ZERO);
    assert Apply(a, EX) == Apply(b, EX);
    assert Apply(a, EY) == Apply(b, EY);
    assert Apply(a, EZ) == Apply(b, EZ);
  }
}

/** Unit quaternions and the proper rotations they stand for. */
module Quaternions {
  import opened Geometry

  datatype Quaternion = Quaternion(w: real, x: real, y: real, z: real)

  function NormSquare(q: Quaternion): real {
    Sqr(q.w) + Sqr(q.x) + Sqr(q.y) + Sqr(q.z)
  }

  function Normalized(q: Quaternion, norm: real): Quaternion
    requires norm > 0.0
  {
    Quaternion(q.w / norm, q.x / norm, q.y / norm, q.z / norm)
  }

  function OnDiagonal(a: real, b: real): real {
    1.0 - 2.0 * (a * a + b * b)
  }

  function AboveDiagonal(a: real, b: real, w: real, c: real): real {
    2.0 * (a * b - w * c)
  }

  function BelowDiagonal(a: real, b: real, w: real, c: real): real {
    2.0 * (a * b + w * c)
  }

  function RotationMatrix(q: Quaternion): Mat {
    Mat(Vec(OnDiagonal(q.y, q.z), BelowDiagonal(q.x, q.y, q.w, q.z), AboveDiagonal(q.x, q.z, q.w, q.y)),
        Vec(AboveDiagonal(q.x, q.y, q.w, q.z), OnDiagonal(q.x, q.z), BelowDiagonal(q.y, q.z, q.w, q.x)),
        Vec(BelowDiagonal(q.x, q.z, q.w, q.y), AboveDiagonal(q.y, q.z, q.w, q.x), OnDiagonal(q.x, q.y)))
  }

  lemma SumOfSquares(q: Quaternion)
    ensures NormSquare(q) >= 0.0
  {
    hide Sqr;
    SquareSign(q.w);
    SquareSign(q.x);
    SquareSign(q.y);
    SquareSign(q.z);
  }

  lemma NormalizedIsUnit(q: Quaternion, norm: real)
    requires norm > 0.0 && norm * norm == NormSquare(q)
    ensures NormSquare(Normalized(q, norm)) == 1.0
  {
    hide Sqr;
    Share(q.w, norm);
    Share(q.x, norm);
    Share(q.y, norm);
    Share(q.z, norm);
    PositiveProduct(norm, norm, norm * norm);
    SharesAddUp(norm * norm, Sqr(q.w / norm), Sqr(q.x / norm), Sqr(q.y / norm), Sqr(q.z / norm), NormSquare(q));
  }

  lemma Share(x: real, norm: real)
    requires norm > 0.0
    ensures (norm * norm) * Sqr(x / norm) == Sqr(x)
  {
    var y := x / norm;
    assert norm * y == x;
    assert (norm * norm) * (y * y) == (norm * y) * (norm * y);
  }

  lemma SharesAddUp(n: real, a: real, b: real, c: real, d: real, sum: real)
    requires n == sum && sum == n * a + n * b + n * c + n * d && n > 0.0
    ensures a + b + c + d == 1.0
  {
    assert n * (a + b + c + d - 1.0) == 0.0;
  }

  predicate UnitNorm(w: real, x: real, y: real, z: real) {
    w * w + x * x + y * y + z * z == 1.0
  }

  lemma UnitColumn(w: real, x: real, y: real, z: real, a: real, b: real, c: real)
    requires UnitNorm(w, x, y, z)
    requires a == OnDiagonal(y, z) && b == BelowDiagonal(x, y, w, z) && c == AboveDiagonal(x, z, w, y)
    ensures a * a + b * b + c * c == 1.0
  {
    var n := y * y + z * z;
    assert b * b + c * c == 4.0 * ((x * x + w * w) * n);
    assert x * x + w * w == 1.0 - n;
    assert a * a == 1.0 - 4.0 * n + 4.0 * (n * n);
    assert (1.0 - n) * n == n - n * n;
  }

  lemma SquareColumns(w: real, x: real, y: real, z: real, a: real, b: real, c: real, d: real, e: real, f: real)
    requires UnitNorm(w, x, y, z)
    requires a == OnDiagonal(y, z) && b == BelowDiagonal(x, y, w, z) && c == AboveDiagonal(x, z, w, y)
    requires d == AboveDiagonal(x, y, w, z) && e == OnDiagonal(x, z) && f == BelowDiagonal(y, z, w, x)
    ensures a * d + b * e + c * f == 0.0
  {
    SquareColumnsIdentity(w, x, y, z, w * w + x * x + y * y + z * z, a, b, c, d, e, f);
  }

  lemma SquareColumnsIdentity(w: real, x: real, y: real, z: real, n: real,
                              a: real, b: real, c: real, d: real, e: real, f: real)
    requires n == w * w + x * x + y * y + z * z
    requires a == n - 2.0 * (y * y + z * z) && b == 2.0 * (x * y + w * z) && c == 2.0 * (x * z - w * y)
    requires d == 2.0 * (x * y - w * z) && e == n - 2.0 * (x * x + z * z) && f == 2.0 * (y * z + w * x)
    ensures a * d + b * e + c * f == 0.0
  {
  }

  lemma CrossOff(w: real, x: real, y: real, z: real, a: real, b: real, c: real, d: real, e: real, f: real,
                 g: real, h: real)
    requires UnitNorm(w, x, y, z)
    requires a == OnDiagonal(y, z) && b == BelowDiagonal(x, y, w, z) && c == AboveDiagonal(x, z, w, y)
    requires d == AboveDiagonal(x, y, w, z) && e == OnDiagonal(x, z) && f == BelowDiagonal(y, z, w, x)
    requires g == BelowDiagonal(x, z, w, y) && h == AboveDiagonal(y, z, w, x)
    ensures b * f - c * e == g && c * d - a * f == h
  {
    var n := w * w + x * x + y * y + z * z;
    CrossFirst(w, x, y, z, n, b, c, e, f, g);
    CrossSecond(w, x, y, z, n, a, c, d, f, h);
    TimesOne(n, g);
    TimesOne(n, h);
  }

  lemma CrossFirst(w: real, x: real, y: real, z: real, n: real, b: real, c: real, e: real, f: real, g: real)
    requires n == w * w + x * x + y * y + z * z
    requires b == 2.0 * (x * y + w * z) && c == 2.0 * (x * z - w * y)
    requires e == n - 2.0 * (x * x + z * z) && f == 2.0 * (y * z + w * x) && g == 2.0 * (x * z + w * y)
    ensures b * f - c * e == n * g
  {
  }

  lemma CrossSecond(w: real, x: real, y: real, z: real, n: real, a: real, c: real, d: real, f: real, h: real)
    requires n == w * w + x * x + y * y + z * z
    requires a == n - 2.0 * (y * y + z * z) && c == 2.0 * (x * z - w * y)
    requires d == 2.0 * (x * y - w * z) && f == 2.0 * (y * z + w * x) && h == 2.0 * (y * z - w * x)
    ensures c * d - a * f == n * h
  {
  }

  lemma TimesOne(n: real, x: real)
    requires n == 1.0
    ensures n * x == x
  {
  }

  lemma CrossDiagonal(w: real, x: real, y: real, z: real, a: real, b: real, d: real, e: real, k: real)
    requires UnitNorm(w, x, y, z)
    requires a == OnDiagonal(y, z) && b == BelowDiagonal(x, y, w, z)
    requires d == AboveDiagonal(x, y, w, z) && e == OnDiagonal(x, z) && k == OnDiagonal(x, y)
    ensures a * e - b * d == k
  {
    var n := w * w + x * x + y * y + z * z;
    CrossDiagonalIdentity(w, x, y, z, n);
    assert a == n - 2.0 * (y * y + z * z) && e == n - 2.0 * (x * x + z * z);
    assert n * (n - 2.0 * (x * x + y * y)) == k;
  }

  lemma CrossDiagonalIdentity(w: real, x: real, y: real, z: real, n: real)
    requires n == w * w + x * x + y * y + z * z
    ensures (n - 2.0 * (y * y + z * z)) * (n - 2.0 * (x * x + z * z))
            - (2.0 * (x * y + w * z)) * (2.0 * (x * y - w * z))
         == n * (n - 2.0 * (x * x + y * y))
  {
  }

  function CycleAxes(q: Quaternion): Quaternion {
    Quaternion(q.w, q.y, q.z, q.x)
  }

  /** Renaming the axes renames the columns. */
  lemma RotationCycles(q: Quaternion)
    ensures var m := RotationMatrix(q);
            RotationMatrix(CycleAxes(q)) == Mat(Cycle(m.j), Cycle(m.k), Cycle(m.i))
    ensures NormSquare(CycleAxes(q)) == NormSquare(q)
  {
  }

  lemma FirstColumns(q: Quaternion)
    requires NormSquare(q) == 1.0
    ensures var m := RotationMatrix(q);
            Dot(m.i, m.i) == 1.0 && Dot(m.i, m.j) == 0.0
  {
    hide OnDiagonal, AboveDiagonal, BelowDiagonal, UnitNorm, NormSquare;
    var m := RotationMatrix(q);
    NormIsUnit(q);
    UnitColumn(q.w, q.x, q.y, q.z, m.i.x, m.i.y, m.i.z);
    SquareColumns(q.w, q.x, q.y, q.z, m.i.x, m.i.y, m.i.z, m.j.x, m.j.y, m.j.z);
  }

  lemma ThirdColumn(q: Quaternion)
    requires NormSquare(q) == 1.0
    ensures var m := RotationMatrix(q); m.k == Cross(m.i, m.j)
  {
    hide OnDiagonal, AboveDiagonal, BelowDiagonal, UnitNorm, NormSquare, Cross;
    var m := RotationMatrix(q);
    NormIsUnit(q);
    CrossOff(q.w, q.x, q.y, q.z, m.i.x, m.i.y, m.i.z, m.j.x, m.j.y, m.j.z, m.k.x, m.k.y);
    CrossDiagonal(q.w, q.x, q.y, q.z, m.i.x, m.i.y, m.j.x, m.j.y, m.k.z);
    CrossEntries(m.i, m.j);
    VecByComponents(m.k, Cross(m.i, m.j));
  }

  lemma NormIsUnit(q: Quaternion)
    requires NormSquare(q) == 1.0
    ensures UnitNorm(q.w, q.x, q.y, q.z)
  {
  }

  /** A unit quaternion gives a proper rotation. */
  lemma QuaternionIsRotation(q: Quaternion)
    requires NormSquare(q) == 1.0
    ensures IsRotation(RotationMatrix(q))
  {
    hide RotationMatrix, NormSquare, Dot, Cross, CycleAxes, Cycle;
    var m := RotationMatrix(q);
    RotationCycles(q);
    RotationCycles(CycleAxes(q));
    FirstColumns(q);
    FirstColumns(CycleAxes(q));
    FirstColumns(CycleAxes(CycleAxes(q)));
    ThirdColumn(q);
    CycleKeeps(m.j, m.j);
    CycleKeeps(m.j, m.k);
    CycleKeeps(m.k, m.k);
    CycleKeeps(Cycle(m.k), Cycle(m.k));
    CycleKeeps(m.k, m.i);
    CycleKeeps(Cycle(m.k), Cycle(m.i));
  }
}

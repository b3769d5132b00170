/** The quintic blend of the joint trajectory: its two derivatives, their peaks and its finite differences. */
module QuinticBlend {
  import opened Geometry

  /** The quintic blend s(r). */
  function Smooth(r: real): real {
    r * r * r * (10.0 + r * (-15.0 + 6.0 * r))
  }

  // ----- The blend and its two derivatives ---------------------------------

  /** s'(r) = 30 r^2 (1 - r)^2. */
  function Rate(r: real): real {
    30.0 * Sqr(r * (1.0 - r))
  }

  /** s''(r) = 60 r (1 - r) (1 - 2 r). */
  function Curvature(r: real): real {
    60.0 * (r * (1.0 - r)) * (1.0 - 2.0 * r)
  }

  /** The mean of s' over [c + 1/2 - d, c + 1/2 + d]. */
  function MeanRate(c: real, d: real): real {
    30.0 * (Sqr(0.25 - Sqr(c)) + Sqr(d) * (2.0 * Sqr(c) + Sqr(d) / 5.0 - 1.0 / 6.0))
  }

  /** The increment of the blend is its mean rate times the step, and the mean over a point is s'. */
  lemma RateIsDerivative(c: real, d: real)
    ensures Smooth(0.5 + c + d) - Smooth(0.5 + c - d) == 2.0 * d * MeanRate(c, d)
    ensures MeanRate(c, 0.0) == Rate(0.5 + c)
  {
    Centred(c + d);
    Centred(c - d);
    OddPowers(c, d);
    CentredRate(c);
  }

  /** The blend around its centre: 1/2 + 30 (u/16 - u^3/6 + u^5/5). */
  function Odd(u: real): real {
    30.0 * (u / 16.0 - u * u * u / 6.0 + u * u * u * u * u / 5.0)
  }

  lemma Centred(u: real)
    ensures Smooth(0.5 + u) == 0.5 + Odd(u)
  {
  }

  lemma OddPowers(c: real, d: real)
    ensures Odd(c + d) - Odd(c - d) == 2.0 * d * MeanRate(c, d)
  {
    hide *;
    var p, q, x, y := c + d, c - d, c * c, d * d;
    Cubes(c, d, p, q, x, y);
    Fifths(c, d, p, q, x, y);
    OddDifference(p, q, d);
    MeanExpanded(d, x, y, p * p * p - q * q * q, p * p * p * p * p - q * q * q * q * q);
    MeanEntries(c, d, x, y);
  }

  lemma OddDifference(p: real, q: real, d: real)
    requires p - q == 2.0 * d
    ensures Odd(p) - Odd(q)
         == 30.0 * (2.0 * d / 16.0 - (p * p * p - q * q * q) / 6.0 + (p * p * p * p * p - q * q * q * q * q) / 5.0)
  {
  }

  lemma MeanEntries(c: real, d: real, x: real, y: real)
    requires x == c * c && y == d * d
    ensures MeanRate(c, d) == 30.0 * ((0.25 - x) * (0.25 - x) + y * (2.0 * x + y / 5.0 - 1.0 / 6.0))
  {
  }

  lemma Cubes(c: real, d: real, p: real, q: real, x: real, y: real)
    requires p == c + d && q == c - d && x == c * c && y == d * d
    ensures p * p * p - q * q * q == 2.0 * d * (3.0 * x + y)
  {
    assert p * p == x + 2.0 * c * d + y && q * q == x - 2.0 * c * d + y;
    assert (x + 2.0 * c * d + y) * (c + d) - (x - 2.0 * c * d + y) * (c - d) == 2.0 * d * (x + y) + 4.0 * (c * c) * d;
  }

  lemma Fifths(c: real, d: real, p: real, q: real, x: real, y: real)
    requires p == c + d && q == c - d && x == c * c && y == d * d
    ensures p * p * p * p * p - q * q * q * q * q == 2.0 * d * (5.0 * (x * x) + 10.0 * (x * y) + y * y)
  {
    var e, f := p * p, q * q;
    var m := c * d;
    assert e == x + y + 2.0 * m && f == x + y - 2.0 * m;
    assert m * m == x * y;
    var n := x + y;
    assert e * e == n * n + 4.0 * (n * m) + 4.0 * (x * y) && f * f == n * n - 4.0 * (n * m) + 4.0 * (x * y);
    FifthsLast(c, d, n, m, x, y, e * e, f * f, p, q);
    assert p * p * p * p * p == e * e * p && q * q * q * q * q == f * f * q;
  }

  lemma FifthsLast(c: real, d: real, n: real, m: real, x: real, y: real, g: real, h: real, p: real, q: real)
    requires p == c + d && q == c - d && n == x + y && m == c * d && x == c * c
    requires g == n * n + 4.0 * (n * m) + 4.0 * (x * y) && h == n * n - 4.0 * (n * m) + 4.0 * (x * y)
    ensures g * p - h * q == 2.0 * d * (5.0 * (x * x) + 10.0 * (x * y) + y * y)
  {
    assert g * p - h * q == 2.0 * d * (n * n + 4.0 * (x * y)) + 8.0 * (n * m) * c;
    assert (n * m) * c == n * (c * c) * d;
    assert n * n == x * x + 2.0 * (x * y) + y * y && n * x == x * x + x * y;
  }

  lemma MeanExpanded(d: real, x: real, y: real, cubes: real, fifths: real)
    requires cubes == 2.0 * d * (3.0 * x + y) && fifths == 2.0 * d * (5.0 * (x * x) + 10.0 * (x * y) + y * y)
    ensures 30.0 * (2.0 * d / 16.0 - cubes / 6.0 + fifths / 5.0)
         == 2.0 * d * (30.0 * ((0.25 - x) * (0.25 - x) + y * (2.0 * x + y / 5.0 - 1.0 / 6.0)))
  {
    assert (0.25 - x) * (0.25 - x) == 1.0 / 16.0 - x / 2.0 + x * x;
    assert y * (2.0 * x + y / 5.0 - 1.0 / 6.0) == 2.0 * (x * y) + (y * y) / 5.0 - y / 6.0;
  }

  lemma CentredRate(c: real)
    ensures MeanRate(c, 0.0) == Rate(0.5 + c)
  {
  }

  // ----- Peaks -------------------------------------------------------------

  const PEAK_RATE := 1.875

  /** Over any stretch of [0, 1] the blend rises, and no faster than 15/8 on average. */
  lemma MeanRateBounds(c: real, d: real)
    requires 0.0 <= d && Abs(c) + d <= 0.5
    ensures 0.0 <= MeanRate(c, d) <= PEAK_RATE
  {
    hide Abs, MeanRate;
    var x, y := c * c, d * d;
    var b := Magnitude(c);
    MeanEntries(c, d, x, y);
    MeanUpper(b, d, x, y);
    MeanLower(b, d, x, y, 0.25 - x, (0.25 - x) * (0.25 - x));
  }

  /** The absolute value, with the facts the bounds use. */
  function Magnitude(c: real): (b: real)
    ensures b >= 0.0 && b * b == c * c && b == Abs(c)
  {
    Abs(c)
  }

  lemma MeanUpper(b: real, d: real, x: real, y: real)
    requires 0.0 <= b && 0.0 <= d && b + d <= 0.5 && x == b * b && y == d * d
    ensures (0.25 - x) * (0.25 - x) + y * (2.0 * x + y / 5.0 - 1.0 / 6.0) <= 1.0 / 16.0
  {
    SquareSum(b, d, x, y);
    NonNegative(x, 0.5 - x - 2.0 * y);
    NonNegative(y, 1.0 / 6.0 - y / 5.0);
    assert (0.25 - x) * (0.25 - x) + y * (2.0 * x + y / 5.0 - 1.0 / 6.0)
        == 1.0 / 16.0 - x * (0.5 - x - 2.0 * y) - y * (1.0 / 6.0 - y / 5.0);
  }

  lemma SquareSum(b: real, d: real, x: real, y: real)
    requires 0.0 <= b && 0.0 <= d && b + d <= 0.5 && x == b * b && y == d * d
    ensures x >= 0.0 && y >= 0.0 && x + y <= 0.25
  {
    NonNegative(b, d);
    NonNegative(0.5 - (b + d), 0.5 + (b + d));
    assert (0.5 - (b + d)) * (0.5 + (b + d)) == 0.25 - x - y - 2.0 * (b * d);
    SquareSign(b);
    SquareSign(d);
    assert x == Sqr(b) && y == Sqr(d);
  }

  lemma MeanLower(b: real, d: real, x: real, y: real, e: real, n: real)
    requires 0.0 <= b && 0.0 <= d && b + d <= 0.5 && x == b * b && y == d * d && e == 0.25 - x && n == e * e
    ensures 0.0 <= n + y * (2.0 * x + y / 5.0 - 1.0 / 6.0)
  {
    SquareSum(b, d, x, y);
    var f := d * (0.5 + b);
    NonNegative(0.5 - b - d, 0.5 + b);
    assert (0.5 - b - d) * (0.5 + b) == e - f;
    NonNegative(d, 0.5 + b);
    NonNegative(e - f, e + f);
    assert (e - f) * (e + f) == e * e - f * f;
    FoldSquare(d, b, x, y, f);
    NonNegative(y, 1.0 / 12.0 + b + 3.0 * x + y / 5.0);
    assert y * (1.0 / 12.0 + b + 3.0 * x + y / 5.0)
        == y * (0.25 + b + x) + y * (2.0 * x + y / 5.0 - 1.0 / 6.0);
  }

  lemma FoldSquare(d: real, b: real, x: real, y: real, f: real)
    requires x == b * b && y == d * d && f == d * (0.5 + b)
    ensures f * f == y * (0.25 + b + x)
  {
    assert f * f == (d * d) * ((0.5 + b) * (0.5 + b));
    assert (0.5 + b) * (0.5 + b) == 0.25 + b + x;
  }

  /** 0 <= s' <= 15/8 on [0, 1], and 15/8 is attained in the middle. */
  lemma RatePeak(r: real)
    requires 0.0 <= r <= 1.0
    ensures 0.0 <= Rate(r) <= PEAK_RATE && Rate(0.5) == PEAK_RATE
  {
    hide Rate, MeanRate;
    RateIsDerivative(r - 0.5, 0.0);
    MeanRateBounds(r - 0.5, 0.0);
    assert 0.5 + (r - 0.5) == r;
    assert Rate(0.5) == 1.875 by {
      MiddleRate();
    }
  }

  lemma MiddleRate()
    ensures Rate(0.5) == 1.875
  {
  }

  /** k is the peak 10 / sqrt(3) of |s''|. */
  predicate IsPeakCurvature(k: real) {
    k > 0.0 && 3.0 * (k * k) == 100.0
  }

  lemma CurvatureCentred(r: real, w: real)
    requires w == 1.0 - 2.0 * r
    ensures Curvature(r) == 15.0 * w * (1.0 - w * w)
  {
  }

  /** |s''| <= 10 / sqrt(3) on [0, 1]. */
  lemma CurvaturePeak(r: real, k: real)
    requires 0.0 <= r <= 1.0 && IsPeakCurvature(k)
    ensures Abs(Curvature(r)) <= k
  {
    hide Curvature;
    var w := 1.0 - 2.0 * r;
    CurvatureCentred(r, w);
    CubicBound(w, w * w);
    SmallerSquare(Curvature(r), k);
  }

  lemma CubicBound(w: real, v: real)
    requires v == w * w && -1.0 <= w <= 1.0
    ensures 3.0 * ((15.0 * w * (1.0 - v)) * (15.0 * w * (1.0 - v))) <= 100.0
  {
    NonNegative(1.0 - w, 1.0 + w);
    SquareSign(w);
    SquareSign(v - 1.0 / 3.0);
    NonNegative(Sqr(v - 1.0 / 3.0), 4.0 / 3.0 - v);
    CubicFactor(v);
    assert (15.0 * w * (1.0 - v)) * (15.0 * w * (1.0 - v)) == 225.0 * (v * ((1.0 - v) * (1.0 - v)));
  }

  lemma CubicFactor(v: real)
    ensures 4.0 / 27.0 - v * ((1.0 - v) * (1.0 - v)) == Sqr(v - 1.0 / 3.0) * (4.0 / 3.0 - v)
  {
  }

  lemma SmallerSquare(x: real, k: real)
    requires k >= 0.0 && x * x <= k * k
    ensures Abs(x) <= k
  {
    var b := Magnitude(x);
    if b > k {
      PositiveProduct(b - k, b + k, b * b - k * k);
    }
  }

  /** The peak is attained: twice off the centre by 1/sqrt(3). */
  lemma CurvatureAttained(root: real, k: real)
    requires root > 0.0 && root * root == 3.0 && k == 10.0 / root
    ensures IsPeakCurvature(k) && 0.0 <= 0.5 - k / 20.0 <= 1.0 && Curvature(0.5 - k / 20.0) == k
  {
    PeakSquare(root, k);
    var w := k / 10.0;
    CurvatureCentred(0.5 - k / 20.0, w);
    assert w * w == 1.0 / 3.0;
    SmallerSquare(w, 1.0);
  }

  lemma PeakSquare(root: real, k: real)
    requires root > 0.0 && root * root == 3.0 && k == 10.0 / root
    ensures k > 0.0 && 3.0 * (k * k) == 100.0
  {
    assert k * root == 10.0;
    assert (k * root) * (k * root) == (k * k) * (root * root);
  }

  // ----- Second differences ------------------------------------------------

  /** The second difference of the blend with step h. */
  function Bend(x: real, h: real): real {
    Smooth(x + h) - 2.0 * Smooth(x) + Smooth(x - h)
  }

  /** The second difference over the squared step is the curvature, up to a term that vanishes with the step. */
  lemma BendIsCurvature(x: real, h: real)
    ensures Bend(x, h) == h * h * (Curvature(x) - 30.0 * (h * h) * (1.0 - 2.0 * x))
  {
    hide *;
    BendOfParts(x, h);
    CurvatureFactored(x, x * (1.0 - x), 60.0 * (1.0 - 2.0 * x));
  }

  lemma BendOfParts(x: real, h: real)
    ensures Bend(x, h) == h * h * (60.0 * (x * (1.0 - x) - h * h / 2.0) * (1.0 - 2.0 * x))
  {
    hide *;
    var u := x - 0.5;
    Centred(u + h);
    Centred(u);
    Centred(u - h);
    assert 0.5 + (u + h) == x + h && 0.5 + u == x && 0.5 + (u - h) == x - h;
    BendOf(x, h);
    CubeSum(u, h, u + h, u - h, u * u, h * h);
    FifthSum(u, h, u + h, u - h, u * u, h * h);
    OddSum(u, u + h, u - h);
    BendCollect(x, u, h, u * u, h * h);
  }

  lemma BendOf(x: real, h: real)
    ensures Bend(x, h) == Smooth(x + h) - 2.0 * Smooth(x) + Smooth(x - h)
  {
  }

  lemma OddSum(u: real, p: real, q: real)
    requires p + q == 2.0 * u
    ensures Odd(p) - 2.0 * Odd(u) + Odd(q)
         == -5.0 * (p * p * p + q * q * q - 2.0 * (u * u * u))
            + 6.0 * (p * p * p * p * p + q * q * q * q * q - 2.0 * (u * u * u * u * u))
  {
  }

  lemma CubeSum(c: real, d: real, p: real, q: real, x: real, y: real)
    requires p == c + d && q == c - d && x == c * c && y == d * d
    ensures p * p * p + q * q * q == 2.0 * c * (x + 3.0 * y)
  {
    Cubes(d, c, p, -q, y, x);
    assert d - c == -q && -q * -q * -q == -(q * q * q);
  }

  lemma FifthSum(c: real, d: real, p: real, q: real, x: real, y: real)
    requires p == c + d && q == c - d && x == c * c && y == d * d
    ensures p * p * p * p * p + q * q * q * q * q == 2.0 * c * (5.0 * (y * y) + 10.0 * (y * x) + x * x)
  {
    Fifths(d, c, p, -q, y, x);
    assert d - c == -q && -q * -q * -q * -q * -q == -(q * q * q * q * q);
  }

  lemma BendCollect(x: real, u: real, h: real, a: real, y: real)
    requires u == x - 0.5 && a == u * u && y == h * h
    ensures -5.0 * (2.0 * u * (a + 3.0 * y) - 2.0 * (u * u * u))
            + 6.0 * (2.0 * u * (5.0 * (y * y) + 10.0 * (y * a) + a * a) - 2.0 * (u * u * u * u * u))
         == h * h * (60.0 * (x * (1.0 - x) - h * h / 2.0) * (1.0 - 2.0 * x))
  {
    assert u * u * u == u * a && u * u * u * u * u == u * (a * a);
    assert x * (1.0 - x) == 0.25 - a && 1.0 - 2.0 * x == -2.0 * u;
    assert y * (60.0 * (0.25 - a - y / 2.0) * (-2.0 * u)) == u * (-30.0 * y + 120.0 * (y * a) + 60.0 * (y * y));
  }

  /** Inside [0, 1] the second difference is at most the peak curvature times the squared step. */
  lemma BendBound(x: real, h: real, k: real)
    requires h >= 0.0 && 0.0 <= x - h && x + h <= 1.0 && IsPeakCurvature(k)
    ensures Abs(Bend(x, h)) <= k * Sqr(h)
  {
    hide Bend, Curvature, IsPeakCurvature, Abs;
    var y, full, w := Sqr(h), x * (1.0 - x), 60.0 * (1.0 - 2.0 * x);
    var part := full - y / 2.0;
    BendFactored(x, h, y, part, w);
    CurvaturePeak(x, k);
    CurvatureFactored(x, full, w);
    PartInside(x, h, y);
    ShorterProduct(full, part, w, k);
    ScaledBound(h, y, part * w, k, Bend(x, h));
  }

  lemma CurvatureFactored(x: real, full: real, w: real)
    requires full == x * (1.0 - x) && w == 60.0 * (1.0 - 2.0 * x)
    ensures Curvature(x) == full * w
  {
  }

  lemma BendFactored(x: real, h: real, y: real, part: real, w: real)
    requires y == h * h && part == x * (1.0 - x) - y / 2.0 && w == 60.0 * (1.0 - 2.0 * x)
    ensures Bend(x, h) == y * (part * w)
  {
    hide Bend;
    BendOfParts(x, h);
  }

  lemma ShorterProduct(full: real, part: real, w: real, k: real)
    requires 0.0 <= part <= full && Abs(full * w) <= k
    ensures Abs(part * w) <= k
  {
    AbsOfProduct(full, w);
    AbsOfProduct(part, w);
    NonNegative(full - part, Abs(w));
  }

  lemma ScaledBound(h: real, y: real, e: real, k: real, bend: real)
    requires y == h * h && Abs(e) <= k && bend == y * e
    ensures Abs(bend) <= k * y
  {
    SquareSign(h);
    assert y == Sqr(h);
    AbsOfProduct(y, e);
    NonNegative(y, k - Abs(e));
  }

  lemma PartInside(x: real, h: real, y: real)
    requires h >= 0.0 && 0.0 <= x - h && x + h <= 1.0 && y == h * h
    ensures 0.0 <= x * (1.0 - x) - y / 2.0 <= x * (1.0 - x)
  {
    NonNegative(x - h, 1.0 - x - h);
    NonNegative(h, 1.0 - 2.0 * h);
    assert (x - h) * (1.0 - x - h) == x * (1.0 - x) - h + y;
    assert h * (1.0 - 2.0 * h) == h - 2.0 * y;
    SquareSign(h);
    assert y == Sqr(h);
  }

  lemma AbsOfProduct(a: real, b: real)
    requires a >= 0.0
    ensures Abs(a * b) == a * Abs(b)
  {
    if b >= 0.0 {
      NonNegative(a, b);
    } else {
      NonNegative(a, -b);
      assert a * -b == -(a * b);
    }
  }
}

/**
  The mathematical library the motion code calls, as a parameter.

  `Valid` lists the defining equations the proofs rely on: the addition rule, the unit circle, the
  quarter turn, the period, and the equations that define the square root and the inverse functions.
  */
module Trigonometry {
  import opened Geometry

  datatype Trig = Trig(cis: real -> Unit, atan2: (real, real) -> real, acos: real -> real,
                       sqrt: real -> real, pi: real)
  {
    /** Cosine and sine of a sum. */
    ghost predicate AddLaw(a: real, b: real) {
      cis(a + b) == Add(cis(a), cis(b))
    }

    ghost predicate UnitLaw(a: real) {
      IsUnit(cis(a))
    }

    ghost predicate SqrtLaw(x: real) {
      x >= 0.0 ==> sqrt(x) >= 0.0 && sqrt(x) * sqrt(x) == x
    }

    /** atan2(y, x) is the direction of (x, y). */
    ghost predicate Atan2Law(y: real, x: real) {
      var r := sqrt(x * x + y * y);
      x == r * cis(atan2(y, x)).c && y == r * cis(atan2(y, x)).s
    }

    /** acos(v) is the angle of cosine v in the upper half turn. */
    ghost predicate AcosLaw(v: real) {
      -1.0 <= v <= 1.0 ==> cis(acos(v)).c == v && cis(acos(v)).s >= 0.0 && 0.0 <= acos(v) <= pi
    }

    /** Angles with the same cosine and sine differ by whole turns. */
    ghost predicate PeriodLaw(a: real, b: real) {
      cis(a) == cis(b) ==> exists k: int :: a == b + FullTurns(k)
    }

    ghost predicate Valid() {
      && pi > 0.0
      && cis(pi / 2.0) == QUARTER
      && (forall a :: UnitLaw(a))
      && (forall a, b :: AddLaw(a, b))
      && (forall x :: SqrtLaw(x))
      && (forall y, x :: Atan2Law(y, x))
      && (forall v :: AcosLaw(v))
      && (forall a, b :: PeriodLaw(a, b))
    }

    /** k whole turns. */
    function FullTurns(k: int): real {
      (k as real) * (2.0 * pi)
    }

    lemma CisUnit(a: real)
      requires Valid()
      ensures IsUnit(cis(a))
    {
      assert UnitLaw(a);
    }

    lemma CisAdd(a: real, b: real)
      requires Valid()
      ensures cis(a + b) == Add(cis(a), cis(b))
    {
      assert AddLaw(a, b);
    }

    lemma CisZero()
      requires Valid()
      ensures cis(0.0) == ONE
    {
      hide IsUnit;
      CisUnit(0.0);
      CisAdd(0.0, 0.0);
      AddCancel(cis(0.0), cis(0.0));
      AddNeg(cis(0.0));
    }

    lemma CisNeg(a: real)
      requires Valid()
      ensures cis(-a) == Neg(cis(a))
    {
      hide IsUnit, Add, Neg;
      CisZero();
      CisUnit(a);
      CisAdd(-a, a);
      AddCancel(cis(-a), cis(a));
      AddOne(Neg(cis(a)));
    }

    lemma CisSubtract(a: real, b: real)
      requires Valid()
      ensures cis(a - b) == Add(cis(a), Neg(cis(b)))
    {
      CisNeg(b);
      CisAdd(a, -b);
      assert a - b == a + -b;
    }

    lemma CisPi()
      requires Valid()
      ensures cis(pi) == HALF && cis(-pi / 2.0) == Neg(QUARTER)
      ensures cis(2.0 * pi) == ONE
    {
      hide Add, Neg, IsUnit;
      QuarterSums();
      assert pi / 2.0 + pi / 2.0 == pi && pi + pi == 2.0 * pi;
      CisAdd(pi / 2.0, pi / 2.0);
      CisAdd(pi, pi);
      CisNeg(pi / 2.0);
      assert -pi / 2.0 == -(pi / 2.0);
    }

    /** Whole turns change nothing. */
    lemma CisTurns(a: real, k: int)
      requires Valid()
      ensures cis(a + FullTurns(k)) == cis(a)
      decreases if k < 0 then -k else k
    {
      hide Add;
      CisPi();
      if k > 0 {
        CisTurns(a, k - 1);
        assert FullTurns(k) == FullTurns(k - 1) + 2.0 * pi;
        CisAdd(a + FullTurns(k - 1), 2.0 * pi);
        AddOne(cis(a));
        assert a + FullTurns(k) == a + FullTurns(k - 1) + 2.0 * pi;
      } else if k < 0 {
        CisTurns(a, k + 1);
        assert FullTurns(k + 1) == FullTurns(k) + 2.0 * pi;
        CisAdd(a + FullTurns(k), 2.0 * pi);
        AddOne(cis(a + FullTurns(k)));
        assert a + FullTurns(k + 1) == a + FullTurns(k) + 2.0 * pi;
      } else {
        assert a + FullTurns(0) == a;
      }
    }

    /** Two angles coincide modulo whole turns. */
    ghost predicate Congruent(a: real, b: real) {
      exists k: int :: a == b + FullTurns(k)
    }

    lemma CongruentIffCis(a: real, b: real)
      requires Valid()
      ensures Congruent(a, b) <==> cis(a) == cis(b)
    {
      assert PeriodLaw(a, b);
      if Congruent(a, b) {
        var k: int :| a == b + FullTurns(k);
        CisTurns(b, k);
      }
    }

    /** The upper half turn has no negative sine. */
    lemma UpperSine(a: real)
      requires Valid() && 0.0 <= a <= pi
      ensures cis(a).s >= 0.0
    {
      var u := cis(a);
      CisUnit(a);
      CosineRange(u.c, u.s);
      assert AcosLaw(u.c);
      var b := acos(u.c);
      CisUnit(b);
      OneOfTwoSines(u, cis(b));
      if u != cis(b) {
        CisNeg(b);
        assert PeriodLaw(a, -b);
        var k: int :| a == -b + FullTurns(k);
        HalfTurnEnds(a, b, k);
      }
    }

    lemma HalfTurnEnds(a: real, b: real, k: int)
      requires Valid() && 0.0 <= a <= pi && 0.0 <= b <= pi && a == -b + FullTurns(k)
      ensures cis(a).s == 0.0
    {
      CisZero();
      CisPi();
      if k <= 0 {
        TurnsOrder(k, 0);
      } else {
        TurnsOrder(1, k);
      }
    }

    lemma TurnsOrder(j: int, k: int)
      requires Valid() && j <= k
      ensures FullTurns(j) <= FullTurns(k)
    {
      NonNegative((k - j) as real, 2.0 * pi);
      assert ((k - j) as real) * (2.0 * pi) == (k as real) * (2.0 * pi) - (j as real) * (2.0 * pi);
    }

    /** The cosine falls over the upper half turn. */
    lemma CosineFalls(a: real, b: real)
      requires Valid() && 0.0 <= a <= b <= pi
      ensures cis(a).c >= cis(b).c
    {
      var m, d := (a + b) / 2.0, (b - a) / 2.0;
      UpperSine(m);
      UpperSine(d);
      CisSubtract(m, d);
      CisAdd(m, d);
      assert m - d == a && m + d == b;
      NonNegative(cis(m).s, cis(d).s);
    }

    lemma SqrtOf(x: real)
      requires Valid() && x >= 0.0
      ensures sqrt(x) >= 0.0 && sqrt(x) * sqrt(x) == x
    {
      assert SqrtLaw(x);
    }

    /** The square root of a known square. */
    lemma SqrtOfSquare(x: real, r: real)
      requires Valid() && r >= 0.0 && x == r * r
      ensures sqrt(x) == r
    {
      SqrtOf(x);
      EqualSquares(sqrt(x), r, x);
    }

    lemma EqualSquares(a: real, b: real, n: real)
      requires a >= 0.0 && b >= 0.0 && n == a * a && n == b * b
      ensures a == b
    {
      if a < b {
        PositiveProduct(b - a, b + a, b * b - a * a);
      } else if b < a {
        PositiveProduct(a - b, a + b, a * a - b * b);
      }
    }

    /** atan2 of a vector of known length r. */
    lemma Atan2Of(y: real, x: real, r: real)
      requires Valid() && r >= 0.0 && r * r == x * x + y * y
      ensures x == r * cis(atan2(y, x)).c && y == r * cis(atan2(y, x)).s
    {
      assert Atan2Law(y, x);
      SqrtOfSquare(x * x + y * y, r);
    }
  }

  lemma CosineRange(c: real, s: real)
    requires c * c + s * s == 1.0
    ensures -1.0 <= c <= 1.0
  {
    SquareSign(s);
    var n := Sqr(s);
    assert c * c == 1.0 - n;
    if c > 1.0 {
      PositiveProduct(c - 1.0, c + 1.0, c * c - 1.0);
    } else if c < -1.0 {
      PositiveProduct(-c - 1.0, -c + 1.0, c * c - 1.0);
    }
  }

  lemma OneOfTwoSines(u: Unit, v: Unit)
    requires IsUnit(u) && IsUnit(v) && u.c == v.c
    ensures u == v || u == Neg(v)
  {
    assert (u.s - v.s) * (u.s + v.s) == 0.0;
  }

  // ----- Rounding, over the reals ------------------------------------------

  function Floor(x: real): int {
    x.Floor
  }

  function Ceil(x: real): int {
    -((-x).Floor)
  }

  function Truncate(x: real): int {
    if x >= 0.0 then x.Floor else -((-x).Floor)
  }

  /** Nearest whole number, halves away from zero. */
  function Round(x: real): int {
    if x >= 0.0 then (x + 0.5).Floor else -((-x + 0.5).Floor)
  }

  /** The C library's fmod: the remainder of a division truncated toward zero. */
  function Fmod(x: real, m: real): real
    requires m > 0.0
  {
    x - (Truncate(x / m) as real) * m
  }
}

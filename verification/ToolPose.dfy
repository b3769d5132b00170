/**
  Where a planned motion puts the tool: the commanded pose, in the command's own numbers, and how closely it is met.
  */
module ToolPose {
  import opened Geometry
  import opened Trigonometry
  import opened Quaternions
  import opened RobotModel
  import opened JointLifting
  import opened SolutionSet
  import opened InverseKinematics
  import opened IkProof
  import opened QuinticBlend
  import opened Trajectory
  import opened MotionProcessor

  // ----- What the orientation of a command means ---------------------------

  /** (w^2 - |a|^2) v + 2 (a.v) a + 2 w (a x v). */
  function Turned(w: real, a: Vec, v: Vec): Vec {
    Plus(Plus(Scale(w * w - Dot(a, a), v), Scale(2.0 * Dot(a, v), a)), Scale(2.0 * w, Cross(a, v)))
  }

  function TurnedRow(w: real, x: real, y: real, z: real, p: real, q: real, r: real): real {
    (w * w - (x * x + y * y + z * z)) * p + 2.0 * (x * p + y * q + z * r) * x + 2.0 * w * (y * r - z * q)
  }

  lemma TurnedRows(w: real, x: real, y: real, z: real, v: Vec)
    ensures Turned(w, Vec(x, y, z), v) == Vec(TurnedRow(w, x, y, z, v.x, v.y, v.z),
                                              TurnedRow(w, y, z, x, v.y, v.z, v.x),
                                              TurnedRow(w, z, x, y, v.z, v.x, v.y))
  {
  }

  lemma MatrixRow(w: real, x: real, y: real, z: real, n: real, p: real, q: real, r: real)
    requires n == w * w + x * x + y * y + z * z && n == 1.0
    ensures OnDiagonal(y, z) * p + AboveDiagonal(x, y, w, z) * q + BelowDiagonal(x, z, w, y) * r
         == TurnedRow(w, x, y, z, p, q, r)
  {
    MatrixRowExpanded(w, x, y, z, n, p, q, r);
  }

  lemma MatrixRowExpanded(w: real, x: real, y: real, z: real, n: real, p: real, q: real, r: real)
    requires n == w * w + x * x + y * y + z * z
    ensures (n - 2.0 * (y * y + z * z)) * p + (2.0 * (x * y - w * z)) * q + (2.0 * (x * z + w * y)) * r
         == (w * w - (x * x + y * y + z * z)) * p + 2.0 * (x * p + y * q + z * r) * x + 2.0 * w * (y * r - z * q)
  {
  }

  lemma ActRows(m: Mat, v: Vec)
    ensures Act(m, v) == Vec(m.i.x * v.x + m.j.x * v.y + m.k.x * v.z, m.i.y * v.x + m.j.y * v.y + m.k.y * v.z,
                             m.i.z * v.x + m.j.z * v.y + m.k.z * v.z)
  {
  }

  /** The matrix of a unit quaternion acts as the quaternion does. */
  lemma QuaternionActs(q: Quaternion, v: Vec)
    requires NormSquare(q) == 1.0
    ensures Act(RotationMatrix(q), v) == Turned(q.w, Vec(q.x, q.y, q.z), v)
  {
    hide Act, Turned, TurnedRow, OnDiagonal, AboveDiagonal, BelowDiagonal, NormSquare;
    var m := RotationMatrix(q);
    NormIsUnit(q);
    NormOfParts(q);
    ActRows(m, v);
    TurnedRows(q.w, q.x, q.y, q.z, v);
    MatrixRow(q.w, q.x, q.y, q.z, 1.0, v.x, v.y, v.z);
    MatrixRow(q.w, q.y, q.z, q.x, 1.0, v.y, v.z, v.x);
    MatrixRow(q.w, q.z, q.x, q.y, 1.0, v.z, v.x, v.y);
    DiagonalsSwap(q.x, q.z, q.w, q.y);
    DiagonalsSwap(q.x, q.y, q.w, q.z);
    DiagonalsSwap(q.y, q.z, q.w, q.x);
  }

  lemma NormOfParts(q: Quaternion)
    requires NormSquare(q) == 1.0
    ensures 1.0 == q.w * q.w + q.x * q.x + q.y * q.y + q.z * q.z
    ensures 1.0 == q.w * q.w + q.y * q.y + q.z * q.z + q.x * q.x
    ensures 1.0 == q.w * q.w + q.z * q.z + q.x * q.x + q.y * q.y
  {
  }

  lemma DiagonalsSwap(a: real, b: real, w: real, c: real)
    ensures OnDiagonal(a, b) == OnDiagonal(b, a)
    ensures AboveDiagonal(a, b, w, c) == AboveDiagonal(b, a, w, c)
    ensures BelowDiagonal(a, b, w, c) == BelowDiagonal(b, a, w, c)
  {
  }

  /** The first three numbers of the orientation. */
  function AxisOf(payload: Payload): Vec
    requires |payload.orientation| == 4
  {
    Vec(payload.orientation[0], payload.orientation[1], payload.orientation[2])
  }

  /** Position and orientation have the right lengths, and the orientation has a direction. */
  predicate IsPoseCommand(t: Trig, payload: Payload) {
    && |payload.position| == 3 && |payload.orientation| == 4
    && t.sqrt(NormSquare(QuaternionOf(payload.orientation))) >= NORM_TOLERANCE
  }

  /**
    The commanded rotation in the command's own numbers: with v the first three numbers of the orientation, w the
    fourth and n the sum of all four squares, it takes u to ((w^2 - v.v) u + 2 (v.u) v + 2 w (v x u)) / n.
    */
  lemma CommandedRotation(t: Trig, payload: Payload, u: Vec)
    requires t.Valid() && IsPoseCommand(t, payload)
    ensures var o := payload.orientation;
            (Scale(Sqr(o[0]) + Sqr(o[1]) + Sqr(o[2]) + Sqr(o[3]), Act(WorldTcp(t, payload).r, u))
             == Turned(o[3], AxisOf(payload), u))
  {
    hide Trig.Valid, Act, Turned, RotationMatrix, NormSquare, Sqr;
    var o, q := payload.orientation, QuaternionOf(payload.orientation);
    var n := t.sqrt(NormSquare(q));
    SumOfSquares(q);
    t.SqrtOf(NormSquare(q));
    NormalizedIsUnit(q, n);
    QuaternionActs(Normalized(q, n), u);
    SquaresReordered(q, o[0], o[1], o[2], o[3]);
    TurnedScales(q, n, u);
  }

  lemma SquaresReordered(q: Quaternion, x: real, y: real, z: real, w: real)
    requires q == Quaternion(w, x, y, z)
    ensures NormSquare(q) == Sqr(x) + Sqr(y) + Sqr(z) + Sqr(w)
  {
  }

  lemma TurnedScales(q: Quaternion, n: real, u: Vec)
    requires n > 0.0
    ensures var h := Normalized(q, n);
            Scale(n * n, Turned(h.w, Vec(h.x, h.y, h.z), u)) == Turned(q.w, Vec(q.x, q.y, q.z), u)
  {
    hide Turned, TurnedRow;
    var h := Normalized(q, n);
    Parts(q, n);
    TurnedRows(h.w, h.x, h.y, h.z, u);
    TurnedRows(q.w, q.x, q.y, q.z, u);
    RowScales(n, h.w, h.x, h.y, h.z, q.w, q.x, q.y, q.z, u.x, u.y, u.z);
    RowScales(n, h.w, h.y, h.z, h.x, q.w, q.y, q.z, q.x, u.y, u.z, u.x);
    RowScales(n, h.w, h.z, h.x, h.y, q.w, q.z, q.x, q.y, u.z, u.x, u.y);
  }

  lemma Parts(q: Quaternion, n: real)
    requires n > 0.0
    ensures var h := Normalized(q, n); q.w == n * h.w && q.x == n * h.x && q.y == n * h.y && q.z == n * h.z
  {
  }

  lemma RowScales(n: real, w: real, x: real, y: real, z: real, w': real, x': real, y': real, z': real,
                  p: real, q: real, r: real)
    requires w' == n * w && x' == n * x && y' == n * y && z' == n * z
    ensures n * n * TurnedRow(w, x, y, z, p, q, r) == TurnedRow(w', x', y', z', p, q, r)
  {
    RowScalesExpanded(n, w, x, y, z, p, q, r);
  }

  lemma RowScalesExpanded(n: real, w: real, x: real, y: real, z: real, p: real, q: real, r: real)
    ensures n * n * ((w * w - (x * x + y * y + z * z)) * p + 2.0 * (x * p + y * q + z * r) * x
                     + 2.0 * w * (y * r - z * q))
         == ((n * w) * (n * w) - ((n * x) * (n * x) + (n * y) * (n * y) + (n * z) * (n * z))) * p
            + 2.0 * ((n * x) * p + (n * y) * q + (n * z) * r) * (n * x)
            + 2.0 * (n * w) * ((n * y) * r - (n * z) * q)
  {
  }

  /** The orientation of a turn by twice the half angle h about the unit vector e, times any positive norm n. */
  predicate IsTurn(payload: Payload, e: Vec, h: Unit, n: real)
    requires |payload.orientation| == 4
  {
    && n > 0.0 && IsUnit(h) && Dot(e, e) == 1.0
    && AxisOf(payload) == Scale(n * h.s, e) && payload.orientation[3] == n * h.c
  }

  /** Such a command keeps e and turns what is across it by twice the half angle, anticlockwise seen from its tip. */
  lemma CommandedTurn(t: Trig, payload: Payload, e: Vec, h: Unit, n: real, u: Vec)
    requires t.Valid() && IsPoseCommand(t, payload) && IsTurn(payload, e, h, n) && Dot(e, u) == 0.0
    ensures var r := WorldTcp(t, payload).r;
            && Act(r, e) == e
            && Act(r, u) == Plus(Scale(Add(h, h).c, u), Scale(Add(h, h).s, Cross(e, u)))
  {
    hide Trig.Valid, Act, Turned, RotationMatrix, NormSquare, IsUnit, Add, Dot, Cross;
    var q := QuaternionOf(payload.orientation);
    TurnNorm(payload, e, h, n);
    t.SqrtOfSquare(NormSquare(q), n);
    NormalizedIsUnit(q, n);
    var a := Normalized(q, n);
    NormalizedTurn(payload, e, h, n);
    QuaternionActs(a, e);
    QuaternionActs(a, u);
    assert IsAcross(e, u);
    TurnedAbout(h, e, u, a.x, a.y, a.z);
    TurnedAlong(h, e, a.x, a.y, a.z);
  }

  lemma TurnNorm(payload: Payload, e: Vec, h: Unit, n: real)
    requires |payload.orientation| == 4 && IsTurn(payload, e, h, n)
    ensures NormSquare(QuaternionOf(payload.orientation)) == n * n
  {
    TurnNormScalar(n, h.c, h.s, e.x, e.y, e.z, h.c * h.c + h.s * h.s, e.x * e.x + e.y * e.y + e.z * e.z);
  }

  lemma TurnNormScalar(n: real, c: real, s: real, x: real, y: real, z: real, u: real, l: real)
    requires u == c * c + s * s && u == 1.0 && l == x * x + y * y + z * z && l == 1.0
    ensures (n * c) * (n * c) + ((n * s) * x) * ((n * s) * x) + ((n * s) * y) * ((n * s) * y)
            + ((n * s) * z) * ((n * s) * z) == n * n
  {
    assert ((n * s) * x) * ((n * s) * x) + ((n * s) * y) * ((n * s) * y) + ((n * s) * z) * ((n * s) * z)
        == (n * s) * (n * s) * l;
    assert (n * c) * (n * c) + (n * s) * (n * s) == n * n * u;
  }

  lemma NormalizedTurn(payload: Payload, e: Vec, h: Unit, n: real)
    requires |payload.orientation| == 4 && IsTurn(payload, e, h, n)
    ensures var a := Normalized(QuaternionOf(payload.orientation), n); a.w == h.c && IsAxis(h.s, e, a.x, a.y, a.z)
  {
    hide IsUnit, Dot;
    Quotient(n, h.c, n * h.c);
    Quotient(n, h.s * e.x, n * h.s * e.x);
    Quotient(n, h.s * e.y, n * h.s * e.y);
    Quotient(n, h.s * e.z, n * h.s * e.z);
  }

  lemma Quotient(n: real, x: real, p: real)
    requires n > 0.0 && p == n * x
    ensures p / n == x
  {
    var y := p / n;
    assert n * y == p;
    assert n * (y - x) == 0.0;
  }

  /** a is the part of a quaternion that stands for the axis e. */
  predicate IsAxis(s: real, e: Vec, x: real, y: real, z: real) {
    x == s * e.x && y == s * e.y && z == s * e.z
  }

  predicate IsAcross(e: Vec, u: Vec) {
    Dot(e, e) == 1.0 && Dot(e, u) == 0.0
  }

  /** The first entry of d u + t (e x u). */
  predicate RowFits(d: Unit, e: Vec, u: Vec, v: real) {
    v == d.c * u.x + d.s * (e.y * u.z - e.z * u.y)
  }

  lemma TurnedAbout(h: Unit, e: Vec, u: Vec, x: real, y: real, z: real)
    requires IsAcross(e, u) && IsAxis(h.s, e, x, y, z)
    ensures Turned(h.c, Vec(x, y, z), u) == Plus(Scale(Add(h, h).c, u), Scale(Add(h, h).s, Cross(e, u)))
  {
    hide *;
    var v := Turned(h.c, Vec(x, y, z), u);
    TurnedRows(h.c, x, y, z, u);
    AxisCycles(h.s, e, u, x, y, z);
    AxisCycles(h.s, Cycle(e), Cycle(u), y, z, x);
    CycledEntries(u);
    CycledEntries(Cycle(u));
    RowAbout(h, e, u, x, y, z, v.x);
    RowAbout(h, Cycle(e), Cycle(u), y, z, x, v.y);
    RowAbout(h, Cycle(Cycle(e)), Cycle(Cycle(u)), z, x, y, v.z);
    SumAcross(Add(h, h), e, u, v);
  }

  lemma CycledEntries(u: Vec)
    ensures Cycle(u).x == u.y && Cycle(u).y == u.z && Cycle(u).z == u.x
  {
  }

  lemma AxisCycles(s: real, e: Vec, u: Vec, x: real, y: real, z: real)
    requires IsAcross(e, u) && IsAxis(s, e, x, y, z)
    ensures IsAcross(Cycle(e), Cycle(u)) && IsAxis(s, Cycle(e), y, z, x)
  {
  }

  lemma SumAcross(d: Unit, e: Vec, u: Vec, v: Vec)
    requires RowFits(d, e, u, v.x) && RowFits(d, Cycle(e), Cycle(u), v.y)
    requires RowFits(d, Cycle(Cycle(e)), Cycle(Cycle(u)), v.z)
    ensures v == Plus(Scale(d.c, u), Scale(d.s, Cross(e, u)))
  {
  }

  lemma RowAbout(h: Unit, e: Vec, u: Vec, x: real, y: real, z: real, v: real)
    requires IsAcross(e, u) && IsAxis(h.s, e, x, y, z) && v == TurnedRow(h.c, x, y, z, u.x, u.y, u.z)
    ensures RowFits(Add(h, h), e, u, v)
  {
    hide TurnedRow, Add;
    AddEntries(h, h);
    RowSubstituted(h.c, h.s, e.x, e.y, e.z, x, y, z, u.x, u.y, u.z, Dot(e, e), Dot(e, u));
    assert v == (h.c * h.c - h.s * h.s) * u.x + 2.0 * (h.c * h.s) * (e.y * u.z - e.z * u.y);
  }

  lemma RowAboutExpanded(c: real, s: real, x: real, y: real, z: real, p: real, q: real, r: real, l: real, m: real)
    requires l == x * x + y * y + z * z && m == x * p + y * q + z * r
    ensures TurnedRow(c, s * x, s * y, s * z, p, q, r)
         == (c * c - s * s * l) * p + 2.0 * (s * s) * (m * x) + 2.0 * (c * s) * (y * r - z * q)
  {
  }

  lemma RowSubstituted(c: real, s: real, x: real, y: real, z: real, x': real, y': real, z': real,
                       p: real, q: real, r: real, l: real, m: real)
    requires x' == s * x && y' == s * y && z' == s * z
    requires l == x * x + y * y + z * z && m == x * p + y * q + z * r
    ensures TurnedRow(c, x', y', z', p, q, r)
         == (c * c - s * s * l) * p + 2.0 * (s * s) * (m * x) + 2.0 * (c * s) * (y * r - z * q)
  {
    RowAboutExpanded(c, s, x, y, z, p, q, r, l, m);
  }

  lemma TurnedAlong(h: Unit, e: Vec, x: real, y: real, z: real)
    requires IsUnit(h) && Dot(e, e) == 1.0 && IsAxis(h.s, e, x, y, z)
    ensures Turned(h.c, Vec(x, y, z), e) == e
  {
    hide Turned, TurnedRow;
    TurnedRows(h.c, x, y, z, e);
    RowAlong(h.c, h.s, e.x, e.y, e.z, x, y, z);
    RowAlong(h.c, h.s, e.y, e.z, e.x, y, z, x);
    RowAlong(h.c, h.s, e.z, e.x, e.y, z, x, y);
  }

  lemma RowAlong(c: real, s: real, x: real, y: real, z: real, x': real, y': real, z': real)
    requires c * c + s * s == 1.0 && x * x + y * y + z * z == 1.0
    requires x' == s * x && y' == s * y && z' == s * z
    ensures TurnedRow(c, x', y', z', x, y, z) == x
  {
    RowAboutExpanded(c, s, x, y, z, x, y, z, x * x + y * y + z * z, x * x + y * y + z * z);
    assert (c * c - s * s) * x + 2.0 * (s * s) * x == (c * c + s * s) * x;
  }

  // ----- The target makes the tool meet the command ------------------------

  /** The tool centre point in the world when the flange is at the given pose seen from the base. */
  function ToolAt(p: Planner, flange: Pose): Pose {
    Compose(Compose(p.worldFromBase, flange), p.flangeFromTcp)
  }

  /** A flange on the target puts the tool on the commanded pose. */
  lemma TargetMeetsCommand(t: Trig, p: Planner, payload: Payload)
    requires IsPoseCommand(t, payload) && IsRigid(p.worldFromBase) && IsRigid(p.flangeFromTcp)
    ensures ToolAt(p, Target(t, p, payload)) == WorldTcp(t, payload)
  {
    hide Compose, Inverse, IsRigid, WorldTcp;
    var base, tip, tcp := p.worldFromBase, p.flangeFromTcp, WorldTcp(t, payload);
    ComposeInverse(base);
    ComposeInverse(tip);
    ComposeAssoc(base, Compose(Inverse(base), tcp), Inverse(tip));
    ComposeAssoc(base, Inverse(base), tcp);
    ComposeOrigin(tcp);
    ComposeAssoc(tcp, Inverse(tip), tip);
  }

  // ----- Errors seen at the tool -------------------------------------------

  function Difference(a: Mat, b: Mat): Mat {
    Mat(Minus(a.i, b.i), Minus(a.j, b.j), Minus(a.k, b.k))
  }

  function MatNorm(m: Mat): real {
    SquaredNorm(m.i) + SquaredNorm(m.j) + SquaredNorm(m.k)
  }

  lemma ActMinus(m: Mat, a: Vec, b: Vec)
    ensures Act(m, Minus(a, b)) == Minus(Act(m, a), Act(m, b))
  {
    hide Act;
    ActPlus(m, Minus(a, b), b);
    assert Plus(Minus(a, b), b) == a;
  }

  lemma ActDifference(a: Mat, b: Mat, v: Vec)
    ensures Act(Difference(a, b), v) == Minus(Act(a, v), Act(b, v))
  {
    hide *;
    var m := Difference(a, b);
    ActRows(m, v);
    ActRows(a, v);
    ActRows(b, v);
    EntriesApart(a, b);
    RowApart(a.i.x, a.j.x, a.k.x, b.i.x, b.j.x, b.k.x, m.i.x, m.j.x, m.k.x, v);
    RowApart(a.i.y, a.j.y, a.k.y, b.i.y, b.j.y, b.k.y, m.i.y, m.j.y, m.k.y, v);
    RowApart(a.i.z, a.j.z, a.k.z, b.i.z, b.j.z, b.k.z, m.i.z, m.j.z, m.k.z, v);
    MinusEntries(Act(m, v), Act(a, v), Act(b, v));
  }

  lemma EntriesApart(a: Mat, b: Mat)
    ensures var m := Difference(a, b);
            && m.i.x == a.i.x - b.i.x && m.i.y == a.i.y - b.i.y && m.i.z == a.i.z - b.i.z
            && m.j.x == a.j.x - b.j.x && m.j.y == a.j.y - b.j.y && m.j.z == a.j.z - b.j.z
            && m.k.x == a.k.x - b.k.x && m.k.y == a.k.y - b.k.y && m.k.z == a.k.z - b.k.z
  {
  }

  lemma RowApart(a: real, b: real, c: real, d: real, e: real, f: real, p: real, q: real, r: real, v: Vec)
    requires p == a - d && q == b - e && r == c - f
    ensures p * v.x + q * v.y + r * v.z == (a * v.x + b * v.y + c * v.z) - (d * v.x + e * v.y + f * v.z)
  {
  }

  lemma MinusEntries(v: Vec, a: Vec, b: Vec)
    requires v.x == a.x - b.x && v.y == a.y - b.y && v.z == a.z - b.z
    ensures v == Minus(a, b)
  {
  }

  /** Turning both from the left keeps the distance. */
  lemma DistanceFromLeft(r: Mat, a: Mat, b: Mat)
    requires IsRotation(r)
    ensures SquaredDistance(Product(r, a), Product(r, b)) == SquaredDistance(a, b)
  {
    hide IsRotation, Act, Dot;
    ActMinus(r, a.i, b.i);
    ActMinus(r, a.j, b.j);
    ActMinus(r, a.k, b.k);
    DotOfActs(r, Minus(a.i, b.i), Minus(a.i, b.i));
    DotOfActs(r, Minus(a.j, b.j), Minus(a.j, b.j));
    DotOfActs(r, Minus(a.k, b.k), Minus(a.k, b.k));
  }

  /** Turning both from the right does, too. */
  lemma DistanceFromRight(r: Mat, a: Mat, b: Mat)
    requires IsRotation(r)
    ensures SquaredDistance(Product(a, r), Product(b, r)) == SquaredDistance(a, b)
  {
    hide IsRotation, Act, SquaredNorm;
    var d := Difference(a, b);
    ActDifference(a, b, r.i);
    ActDifference(a, b, r.j);
    ActDifference(a, b, r.k);
    NormByRows(Mat(Act(d, r.i), Act(d, r.j), Act(d, r.k)));
    NormByRows(d);
    RowsTurned(d, r);
  }

  /** The squared norm, row by row. */
  function RowNorm(m: Mat): real {
    SquaredNorm(Vec(m.i.x, m.j.x, m.k.x)) + SquaredNorm(Vec(m.i.y, m.j.y, m.k.y))
    + SquaredNorm(Vec(m.i.z, m.j.z, m.k.z))
  }

  lemma NormByRows(m: Mat)
    ensures MatNorm(m) == RowNorm(m)
  {
  }

  lemma RowsTurned(d: Mat, r: Mat)
    requires IsRotation(r)
    ensures RowNorm(Mat(Act(d, r.i), Act(d, r.j), Act(d, r.k))) == RowNorm(d)
  {
    hide *;
    var m := Mat(Act(d, r.i), Act(d, r.j), Act(d, r.k));
    ActRows(d, r.i);
    ActRows(d, r.j);
    ActRows(d, r.k);
    RowsOf(m);
    RowsOf(d);
    RowTurned(Vec(d.i.x, d.j.x, d.k.x), r, m.i.x, m.j.x, m.k.x);
    RowTurned(Vec(d.i.y, d.j.y, d.k.y), r, m.i.y, m.j.y, m.k.y);
    RowTurned(Vec(d.i.z, d.j.z, d.k.z), r, m.i.z, m.j.z, m.k.z);
  }

  lemma RowsOf(m: Mat)
    ensures RowNorm(m) == SquaredNorm(Vec(m.i.x, m.j.x, m.k.x)) + SquaredNorm(Vec(m.i.y, m.j.y, m.k.y))
                          + SquaredNorm(Vec(m.i.z, m.j.z, m.k.z))
  {
  }

  lemma RowTurned(v: Vec, r: Mat, a: real, b: real, c: real)
    requires IsRotation(r)
    requires a == v.x * r.i.x + v.y * r.i.y + v.z * r.i.z && b == v.x * r.j.x + v.y * r.j.y + v.z * r.j.z
    requires c == v.x * r.k.x + v.y * r.k.y + v.z * r.k.z
    ensures SquaredNorm(Vec(a, b, c)) == SquaredNorm(v)
  {
    hide IsRotation, Act, Dot, Transpose;
    TransposeIsRotation(r);
    TransposeAct(r, v);
    DotOfActs(Transpose(r), v, v);
    DotEntries(r.i, v);
    DotEntries(r.j, v);
    DotEntries(r.k, v);
    VecByComponents(Vec(a, b, c), Act(Transpose(r), v));
  }

  lemma DotEntries(a: Vec, v: Vec)
    ensures Dot(a, v) == v.x * a.x + v.y * a.y + v.z * a.z
  {
  }

  /** A matrix stretches a vector by its norm at most. */
  lemma StretchBound(m: Mat, v: Vec)
    ensures SquaredNorm(Act(m, v)) <= MatNorm(m) * SquaredNorm(v)
  {
    hide Act, Dot, MatNorm, RowNorm;
    ActRows(m, v);
    NormByRows(m);
    StretchRows(Vec(m.i.x, m.j.x, m.k.x), Vec(m.i.y, m.j.y, m.k.y), Vec(m.i.z, m.j.z, m.k.z), v, m);
  }

  lemma StretchRows(a: Vec, b: Vec, c: Vec, v: Vec, m: Mat)
    requires a == Vec(m.i.x, m.j.x, m.k.x) && b == Vec(m.i.y, m.j.y, m.k.y) && c == Vec(m.i.z, m.j.z, m.k.z)
    ensures SquaredNorm(Vec(m.i.x * v.x + m.j.x * v.y + m.k.x * v.z, m.i.y * v.x + m.j.y * v.y + m.k.y * v.z,
                            m.i.z * v.x + m.j.z * v.y + m.k.z * v.z))
         <= RowNorm(m) * SquaredNorm(v)
  {
    hide Cross;
    CauchySchwarz(a, v);
    CauchySchwarz(b, v);
    CauchySchwarz(c, v);
    ThreeShares(SquaredNorm(a), SquaredNorm(b), SquaredNorm(c), SquaredNorm(v));
  }

  lemma ThreeShares(a: real, b: real, c: real, n: real)
    ensures (a + b + c) * n == a * n + b * n + c * n
  {
  }

  lemma CauchySchwarz(a: Vec, b: Vec)
    ensures Dot(a, b) * Dot(a, b) <= SquaredNorm(a) * SquaredNorm(b)
  {
    hide Cross, Dot;
    Lagrange(a, b);
    NormSign(Cross(a, b));
  }

  lemma NormSign(v: Vec)
    ensures SquaredNorm(v) >= 0.0
  {
    SquareSign(v.x);
    SquareSign(v.y);
    SquareSign(v.z);
    assert SquaredNorm(v) == Sqr(v.x) + Sqr(v.y) + Sqr(v.z);
  }

  /** Lengths add up at most. */
  lemma LengthsAddUp(a: Vec, b: Vec, p: real, q: real)
    requires p >= 0.0 && q >= 0.0 && SquaredNorm(a) <= p * p && SquaredNorm(b) <= q * q
    ensures SquaredNorm(Plus(a, b)) <= Sqr(p + q)
  {
    hide Dot, Cross;
    CauchySchwarz(a, b);
    NormSign(a);
    NormSign(b);
    ProductOrder(SquaredNorm(a), SquaredNorm(b), p * p, q * q);
    assert (p * p) * (q * q) == (p * q) * (p * q);
    NonNegative(p, q);
    BelowByInSquare(Dot(a, b), p * q);
    SumNorm(a, b);
    assert Sqr(p + q) == p * p + 2.0 * (p * q) + q * q;
  }

  lemma ProductOrder(a: real, b: real, c: real, d: real)
    requires 0.0 <= a <= c && 0.0 <= b <= d
    ensures a * b <= c * d
  {
    NonNegative(a, d - b);
    NonNegative(d, c - a);
    assert a * (d - b) == a * d - a * b && d * (c - a) == c * d - a * d;
  }

  lemma BelowByInSquare(x: real, y: real)
    requires y >= 0.0 && x * x <= y * y
    ensures x <= y
  {
    if x > y {
      PositiveProduct(x - y, x + y, x * x - y * y);
    }
  }

  lemma SumNorm(a: Vec, b: Vec)
    ensures SquaredNorm(Plus(a, b)) == SquaredNorm(a) + 2.0 * Dot(a, b) + SquaredNorm(b)
  {
  }

  /** A flange close to another one puts the tool close: the rotation error also acts over the length of the tool. */
  lemma ToolStaysClose(p: Planner, flange: Pose, other: Pose, reach: real)
    requires IsRigid(p.worldFromBase) && IsRigid(p.flangeFromTcp) && Close(flange, other)
    requires reach >= 0.0 && SquaredNorm(p.flangeFromTcp.p) <= reach * reach
    ensures var a, b := ToolAt(p, flange), ToolAt(p, other);
            && SquaredDistance(a.r, b.r) <= ROTATION_TOLERANCE * ROTATION_TOLERANCE
            && SquaredNorm(Minus(a.p, b.p)) <= Sqr(POSITION_TOLERANCE + ROTATION_TOLERANCE * reach)
  {
    hide IsRotation, Act, Dot, SquaredDistance, SquaredNorm, Product, Sqr;
    var base, tip := p.worldFromBase, p.flangeFromTcp;
    var d := Difference(flange.r, other.r);
    DistanceFromLeft(base.r, flange.r, other.r);
    DistanceFromRight(tip.r, Product(base.r, flange.r), Product(base.r, other.r));
    TipApart(base, flange, other, tip.p);
    DotOfActs(base.r, Plus(Act(d, tip.p), Minus(flange.p, other.p)), Plus(Act(d, tip.p), Minus(flange.p, other.p)));
    NormIsDot(Plus(Act(d, tip.p), Minus(flange.p, other.p)));
    NormIsDot(Act(base.r, Plus(Act(d, tip.p), Minus(flange.p, other.p))));
    StretchBound(d, tip.p);
    DifferenceNorm(flange.r, other.r);
    NormSign(tip.p);
    MatNormSign(d);
    ProductOrder(MatNorm(d), SquaredNorm(tip.p), ROTATION_TOLERANCE * ROTATION_TOLERANCE, reach * reach);
    StretchSquare(ROTATION_TOLERANCE, reach);
    LengthsAddUp(Act(d, tip.p), Minus(flange.p, other.p), ROTATION_TOLERANCE * reach, POSITION_TOLERANCE);
  }

  lemma StretchSquare(a: real, b: real)
    requires a >= 0.0 && b >= 0.0
    ensures (a * a) * (b * b) == (a * b) * (a * b) && a * b >= 0.0
  {
    NonNegative(a, b);
  }

  lemma NormIsDot(v: Vec)
    ensures SquaredNorm(v) == Dot(v, v)
  {
    hide Dot;
  }

  lemma DifferenceNorm(a: Mat, b: Mat)
    ensures MatNorm(Difference(a, b)) == SquaredDistance(a, b)
  {
    hide SquaredNorm, Minus;
  }

  lemma MatNormSign(m: Mat)
    ensures MatNorm(m) >= 0.0
  {
    hide SquaredNorm;
    NormSign(m.i);
    NormSign(m.j);
    NormSign(m.k);
  }

  /** The two tool points differ by the turned difference of the flanges, tool length included. */
  lemma TipApart(base: Pose, f: Pose, g: Pose, tip: Vec)
    ensures Minus(Apply(Compose(base, f), tip), Apply(Compose(base, g), tip))
         == Act(base.r, Plus(Act(Difference(f.r, g.r), tip), Minus(f.p, g.p)))
  {
    hide Act, Product, Compose, Difference;
    ApplyCompose(base, f, tip);
    ApplyCompose(base, g, tip);
    ActDifference(f.r, g.r, tip);
    var u, v := Apply(f, tip), Apply(g, tip);
    ActMinus(base.r, u, v);
    assert Minus(u, v) == Plus(Act(Difference(f.r, g.r), tip), Minus(f.p, g.p));
  }

  // ----- What a reply promises ---------------------------------------------

  /**
    The joint target of every success puts the tool on the commanded pose, up to the tolerances of the recheck: the
    point is the commanded position, the rotation the one `CommandedRotation` describes.
    */
  lemma PlannedToolMeetsCommand(t: Trig, p: Planner, taskId: string, payload: Payload, data: PlanData, reach: real)
    requires t.Valid() && SixAxes(p.model) && SupportedOrigins(p.model.origins) && ValidConfig(p.config)
    requires IsRigid(p.worldFromBase) && IsRigid(p.flangeFromTcp) && ValidCommand(t, p, taskId, payload)
    requires IsAnswer(t, p, taskId, payload, Solutions(t, p, payload), Planned(data))
    requires reach >= 0.0 && SquaredNorm(p.flangeFromTcp.p) <= reach * reach
    ensures |data.jointTarget| == JOINT_COUNT
    ensures var tool := ToolAt(p, Fk(t, p.model, data.jointTarget));
            && SquaredDistance(tool.r, WorldTcp(t, payload).r) <= ROTATION_TOLERANCE * ROTATION_TOLERANCE
            && SquaredNorm(Minus(tool.p, Vec(payload.position[0], payload.position[1], payload.position[2])))
               <= Sqr(POSITION_TOLERANCE + ROTATION_TOLERANCE * reach)
  {
    hide Trig.Valid, SupportedOrigins, ValidConfig, IsRigid, IsRigidPose, Close, Fk, Target, ToolAt, NormSquare,
         SquaredDistance, SquaredNorm, IkList, JointDistance, RotationMatrix;
    var target := Target(t, p, payload);
    var solutions := Solutions(t, p, payload);
    assert IsPlan(t, p, taskId, payload, solutions, data);
    var i: nat :| IsNearest(solutions, Reference(p.config, payload), i) && solutions[i] == data.jointTarget;
    ListedIsClose(t, p.model, target, Reference(p.config, payload), i);
    TargetMeetsCommand(t, p, payload);
    ToolStaysClose(p, Fk(t, p.model, data.jointTarget), target, reach);
  }

  /** The fields of a success: its task, its flags, its counts, and the solution nearest to the reference. */
  lemma PlanFields(t: Trig, p: Planner, taskId: string, payload: Payload, solutions: seq<Joints>, data: PlanData)
    requires t.Valid() && ValidConfig(p.config) && IsPlan(t, p, taskId, payload, solutions, data)
    ensures data.taskId == taskId && data.forceLimit == payload.forceLimit
    ensures data.phase == "planned" && data.isSuccess && !data.executed && data.executionMode == "plan_only"
    ensures data.referenceSource == (if payload.currentJointAngles.Some? then "request" else "config")
    ensures data.solutionCount == |solutions|
    ensures IsNearestIn(data.jointTarget, solutions, Reference(p.config, payload))
  {
    hide Trig.Valid, DurationTo, Sample, Ratio, ValidConfig, Period, JointDistance, IsNearestIn;
    var reference := Reference(p.config, payload);
    var i: nat :| IsNearest(solutions, reference, i) && solutions[i] == data.jointTarget;
    NearestIs(solutions, reference, i);
  }

  /** A member at least as close to the reference as any other, joint differences squared and added up. */
  predicate IsNearestIn(target: seq<real>, solutions: seq<Joints>, reference: seq<real>) {
    && |target| == JOINT_COUNT == |reference| && target in solutions
    && forall i :: 0 <= i < |solutions| ==> Apart(target, reference) <= Apart(solutions[i], reference)
  }

  lemma NearestIs(solutions: seq<Joints>, reference: Joints, i: nat)
    requires IsNearest(solutions, reference, i)
    ensures IsNearestIn(solutions[i], solutions, reference)
  {
    hide JointDistance, Apart;
    forall j | 0 <= j < |solutions|
      ensures Apart(solutions[i], reference) <= Apart(solutions[j], reference)
    {
      ApartIs(solutions[i], reference);
      ApartIs(solutions[j], reference);
    }
  }

  lemma ApartIs(a: Joints, b: Joints)
    ensures Apart(a, b) == JointDistance(a, b)
  {
    hide JointDistance, Sqr;
    JointDistanceIs(a, b);
  }

  /**
    Its timing and its samples: the period times the steps is the duration, and each joint follows the quintic
    blend.
    */
  lemma PlanSamples(t: Trig, p: Planner, taskId: string, payload: Payload, solutions: seq<Joints>, data: PlanData,
                    idx: nat, k: nat)
    requires t.Valid() && ValidConfig(p.config) && IsPlan(t, p, taskId, payload, solutions, data)
    requires idx < p.config.sampleCount && k < JOINT_COUNT
    ensures data.samplePeriodSec * ((p.config.sampleCount - 1) as real) == data.durationSec
    ensures |data.jointTarget| == JOINT_COUNT
    ensures |data.jointTrajectory| == p.config.sampleCount && |data.jointTrajectory[idx]| == JOINT_COUNT
    ensures var a, b := Reference(p.config, payload)[k], data.jointTarget[k];
            var r := (idx as real) / ((p.config.sampleCount - 1) as real);
            data.jointTrajectory[idx][k] == a + (r * r * r * (10.0 - 15.0 * r + 6.0 * (r * r))) * (b - a)
  {
    hide Trig.Valid, DurationTo, Smooth, IsNearest;
    var reference := Reference(p.config, payload);
    var n := p.config.sampleCount;
    assert data.jointTrajectory[idx] == Sample(reference, data.jointTarget, Ratio(n, idx));
    BlendIs(Ratio(n, idx));
    PeriodTimesSteps(data.durationSec, (n - 1) as real);
  }

  /** The sum of the six squared joint differences. */
  function Apart(a: Joints, b: Joints): real {
    Sqr(a[0] - b[0]) + Sqr(a[1] - b[1]) + Sqr(a[2] - b[2]) + Sqr(a[3] - b[3]) + Sqr(a[4] - b[4]) + Sqr(a[5] - b[5])
  }

  lemma BlendIs(r: real)
    ensures Smooth(r) == r * r * r * (10.0 - 15.0 * r + 6.0 * (r * r))
  {
  }

  lemma PeriodTimesSteps(duration: real, n: real)
    requires n > 0.0
    ensures (duration / n) * n == duration
  {
  }

  /**
    A command is valid in numbers: lengths, an orientation of norm 1e-12 or more, the force, and joints in the
    limits.
    */
  lemma ValidCommandIff(t: Trig, p: Planner, taskId: string, payload: Payload)
    requires t.Valid()
    ensures var o, q := payload.orientation, payload.currentJointAngles;
            (ValidCommand(t, p, taskId, payload)
             <==> && 1 <= |taskId| <= 256 && |payload.position| == 3 && |o| == 4
                  && Sqr(o[0]) + Sqr(o[1]) + Sqr(o[2]) + Sqr(o[3]) >= 0.000000000001 * 0.000000000001
                  && 0.0 < payload.forceLimit <= p.config.maximumForce
                  && (q.Some? ==> |q.value| == JOINT_COUNT)
                  && forall k :: 0 <= k < JOINT_COUNT ==>
                       p.model.jointMin[k] <= Reference(p.config, payload)[k] <= p.model.jointMax[k])
  {
    hide Trig.Valid, NormSquare, Sqr;
    if |payload.orientation| == 4 {
      var o, n := payload.orientation, NormSquare(QuaternionOf(payload.orientation));
      SquaresReordered(QuaternionOf(o), o[0], o[1], o[2], o[3]);
      SumOfSquares(QuaternionOf(o));
      t.SqrtOf(n);
      NormIff(t.sqrt(n), 0.000000000001, n);
    }
  }

  lemma NormIff(root: real, e: real, n: real)
    requires root >= 0.0 && e > 0.0 && n == root * root
    ensures root >= e <==> n >= e * e
  {
    if root < e {
      PositiveProduct(e - root, e + root, e * e - n);
    } else {
      NonNegative(root - e, root + e);
      assert (root - e) * (root + e) == root * root - e * e;
    }
  }

  lemma ListedIsClose(t: Trig, m: Model, target: Pose, ref: Joints, i: nat)
    requires t.Valid() && SixAxes(m) && SupportedOrigins(m.origins) && i < |IkList(t, m, target, ref)|
    ensures Close(Fk(t, m, IkList(t, m, target, ref)[i]), target)
  {
    hide SupportedOrigins, Duplicate, Candidates, AppendedAll, Represented, Close, WithinLimits, Fk;
    SolutionListInvariant(t, m, target, ref, Candidates(t, m, target, ref));
    assert Verifies(t, m, target, IkList(t, m, target, ref)[i]);
  }

  /** A command whose target some joint vector reaches is planned, given a full turn of room in every joint. */
  lemma ReachableCommandIsPlanned(t: Trig, p: Planner, taskId: string, payload: Payload, reply: Reply, q: Joints)
    requires t.Valid() && SixAxes(p.model) && SupportedOrigins(p.model.origins) && ValidConfig(p.config)
    requires ChainsAgree(t, p.model) && IsRigid(p.model.joint6FromFlange)
    requires FullTurnRanges(t.pi, p.model.jointMin, p.model.jointMax)
    requires ValidCommand(t, p, taskId, payload) && IsAnswer(t, p, taskId, payload, Solutions(t, p, payload), reply)
    requires Reaches(t, p.model, Target(t, p, payload), Reference(p.config, payload), q)
    ensures reply.Planned?
  {
    hide Trig.Valid, SupportedOrigins, ValidConfig, ChainsAgree, IsRigid, IsRigidPose, Target, Reaches, NormSquare,
         IkList, IsPlan, FullTurnRanges;
    ReachableTargetIsSolved(t, p.model, Target(t, p, payload), Reference(p.config, payload), q);
  }
}

/** Rewriting the scene's joint chain into Craig MDH form, and why that keeps its meaning. */
module ModelExport {
  import opened Geometry
  import opened Trigonometry
  import opened RobotModel
  import opened Options

  const EXPORT_TOLERANCE := 0.0000000001

  /** An adapter Rz(u) Tz(d): the same axis, seen from another zero. */
  datatype Adapter = Adapter(u: Unit, d: real)
  {
    predicate Valid() {
      IsUnit(u)
    }

    function Frame(): Pose {
      Pose(RotZMat(u), Vec(0.0, 0.0, d))
    }
  }

  // ----- Adapters commute with the joint and cancel in pairs ---------------

  lemma AdapterIsRigid(a: Adapter)
    requires a.Valid()
    ensures IsRigid(a.Frame())
  {
    hide IsRotation;
    RotZMatIsRotation(a.u);
  }

  lemma AdapterCancels(a: Adapter)
    requires a.Valid()
    ensures Compose(a.Frame(), Inverse(a.Frame())) == ORIGIN
  {
    hide IsRigid, Adapter.Frame;
    AdapterIsRigid(a);
    ComposeInverse(a.Frame());
  }

  /** Rz and Tz share an axis. */
  lemma AdapterCommutes(a: Adapter, v: Unit)
    ensures Compose(a.Frame(), RotZPose(v)) == Compose(RotZPose(v), a.Frame())
  {
    hide Act;
    forall w: Vec
      ensures Act(RotZMat(a.u), Act(RotZMat(v), w)) == Act(RotZMat(v), Act(RotZMat(a.u), w))
    {
      RotationsCommute(a.u, v, w);
    }
    ProductByAction(RotZMat(a.u), RotZMat(v));
    ProductByAction(RotZMat(v), RotZMat(a.u));
    ActBasis(RotZMat(a.u));
    ActVertical(v, a.d);
  }

  lemma RotationsCommute(a: Unit, b: Unit, w: Vec)
    ensures Act(RotZMat(a), Act(RotZMat(b), w)) == Act(RotZMat(b), Act(RotZMat(a), w))
  {
    hide *;
    ActRotations(b, w);
    ActRotations(a, w);
    ActRotations(a, RotZ(b, w));
    ActRotations(b, RotZ(a, w));
    RotZAdd(a, b, w);
    RotZAdd(b, a, w);
    AddComm(a, b);
  }

  lemma ActVertical(v: Unit, d: real)
    ensures Act(RotZMat(v), Vec(0.0, 0.0, d)) == Vec(0.0, 0.0, d)
  {
    hide Act;
    ActRotations(v, Vec(0.0, 0.0, d));
  }

  lemma ProductByAction(a: Mat, b: Mat)
    ensures Product(a, b) == Mat(Act(a, Act(b, EX)), Act(a, Act(b, EY)), Act(a, Act(b, EZ)))
  {
    ActBasis(b);
  }

  /** Craig's form from the pairs of its twist and joint angle: Rx(a) Rz(b), with its translation. */
  function Craig(a: Unit, b: Unit, row: Row): Pose {
    Pose(TiltColumns(a, RotZMat(b)), Vec(row.length, -row.distance * a.s, row.distance * a.c))
  }

  lemma MdhIsCraig(t: Trig, row: Row, angle: real)
    ensures MdhTransform(t, row, angle) == Craig(t.cis(row.twist), t.cis(angle), row)
  {
  }

  /** A row takes a point d along z, turns it about z, shifts it along x, and turns it about x by the twist. */
  lemma MdhActs(t: Trig, row: Row, angle: real, v: Vec)
    ensures Apply(MdhTransform(t, row, angle), v)
         == RotX(t.cis(row.twist), Plus(RotZ(t.cis(angle), Plus(v, Vec(0.0, 0.0, row.distance))),
                                        Vec(row.length, 0.0, 0.0)))
  {
    hide *;
    var a, b := t.cis(row.twist), t.cis(angle);
    MdhIsCraig(t, row, angle);
    TiltColumnsAct(a, RotZMat(b), v);
    ActRotations(b, v);
    CraigShift(a, b, row, v, RotZ(b, v));
  }

  lemma CraigShift(a: Unit, b: Unit, row: Row, v: Vec, w: Vec)
    requires w == RotZ(b, v) && Act(TiltColumns(a, RotZMat(b)), v) == RotX(a, w)
    ensures Apply(Craig(a, b, row), v)
         == RotX(a, Plus(RotZ(b, Plus(v, Vec(0.0, 0.0, row.distance))), Vec(row.length, 0.0, 0.0)))
  {
    hide Act, TiltColumns, RotZMat, RotX, RotZ;
    RaisedTurn(b, v, row.distance);
    ShiftedTilt(a, w, row.length, row.distance);
  }

  lemma RaisedTurn(b: Unit, v: Vec, d: real)
    ensures RotZ(b, Plus(v, Vec(0.0, 0.0, d))) == Plus(RotZ(b, v), Vec(0.0, 0.0, d))
  {
  }

  lemma ShiftedTilt(a: Unit, w: Vec, l: real, d: real)
    ensures RotX(a, Plus(Plus(w, Vec(0.0, 0.0, d)), Vec(l, 0.0, 0.0))) == Plus(RotX(a, w), Vec(l, -d * a.s, d * a.c))
  {
  }

  /** A Craig row turned by q is the unturned row followed by Rz(q). */
  lemma RowTurns(t: Trig, row: Row, q: real)
    requires t.Valid()
    ensures MdhTransform(t, row, q + row.offset) == Compose(MdhTransform(t, row, row.offset), RotZPose(t.cis(q)))
  {
    hide *;
    t.CisAdd(row.offset, q);
    assert q + row.offset == row.offset + q;
    MdhIsCraig(t, row, row.offset + q);
    MdhIsCraig(t, row, row.offset);
    CraigTurns(t.cis(row.twist), t.cis(row.offset), t.cis(q), row);
  }

  lemma CraigTurns(a: Unit, b: Unit, c: Unit, row: Row)
    ensures Craig(a, Add(b, c), row) == Compose(Craig(a, b, row), RotZPose(c))
  {
    hide RotZ, RotX, Add, Act, RotZMat, TiltColumns;
    TiltProduct(a, b, c);
    ActBasis(TiltColumns(a, RotZMat(b)));
  }

  lemma TiltProduct(a: Unit, b: Unit, c: Unit)
    ensures Product(TiltColumns(a, RotZMat(b)), RotZMat(c)) == TiltColumns(a, RotZMat(Add(b, c)))
  {
    hide RotZ, RotX, Add, Act, RotZMat;
    TiltedAct(a, b, c, EX);
    TiltedAct(a, b, c, EY);
    TiltedAct(a, b, c, EZ);
    ActBasis(RotZMat(c));
    ActBasis(RotZMat(Add(b, c)));
  }

  lemma TiltedAct(a: Unit, b: Unit, c: Unit, v: Vec)
    ensures Act(TiltColumns(a, RotZMat(b)), Act(RotZMat(c), v)) == RotX(a, Act(RotZMat(Add(b, c)), v))
  {
    hide *;
    TiltColumnsAct(a, RotZMat(b), Act(RotZMat(c), v));
    ActRotations(c, v);
    ActRotations(b, RotZ(c, v));
    ActRotations(Add(b, c), v);
    RotZAdd(b, c, v);
  }

  // ----- Telescoping -------------------------------------------------------

  /** The transform between consecutive adapted joints: A^-1 O A'. */
  function Between(a: Adapter, origin: Pose, b: Adapter): Pose {
    Compose(Compose(Inverse(a.Frame()), origin), b.Frame())
  }

  /** Every row after the first reproduces the transform between its adapters. */
  ghost predicate RowsFit(t: Trig, origins: seq<Pose>, adapters: seq<Adapter>, mdh: seq<Row>)
    requires |origins| == |adapters| == |mdh|
  {
    && (forall idx :: 0 <= idx < |adapters| ==> adapters[idx].Valid())
    && (|mdh| > 0 ==> mdh[0] == Row(0.0, 0.0, 0.0, 0.0))
    && (forall idx :: 0 < idx < |mdh| ==>
          MdhTransform(t, mdh[idx], mdh[idx].offset) == Between(adapters[idx - 1], origins[idx], adapters[idx]))
  }

  lemma FirstRowIsIdentity(t: Trig)
    requires t.Valid()
    ensures MdhTransform(t, Row(0.0, 0.0, 0.0, 0.0), 0.0) == ORIGIN
  {
    t.CisZero();
  }

  /** One step: ... A, then A^-1 O A' Rz(q), leaves ... O Rz(q) A'. */
  lemma StepTelescopes(scene: Pose, a: Pose, back: Pose, origin: Pose, b: Pose, r: Pose)
    requires Compose(a, back) == ORIGIN && Compose(b, r) == Compose(r, b)
    ensures Compose(Compose(scene, a), Compose(Compose(Compose(back, origin), b), r))
         == Compose(Compose(Compose(scene, origin), r), b)
  {
    hide *;
    var x := Compose(origin, Compose(r, b));
    ComposeAssoc(Compose(back, origin), b, r);
    ComposeAssoc(back, origin, Compose(r, b));
    ComposeAssoc(scene, a, Compose(back, x));
    ComposeAssoc(a, back, x);
    ComposeOrigin(x);
    ComposeAssoc(scene, origin, Compose(r, b));
    ComposeAssoc(Compose(scene, origin), r, b);
  }

  /** The calibrated chain is the scene chain followed by the last adapter, for every joint vector. */
  lemma {:induction false} ChainTelescopes(t: Trig, origins: seq<Pose>, adapters: seq<Adapter>, mdh: seq<Row>,
                                           q: seq<real>, n: nat)
    requires t.Valid() && |origins| == |adapters| == |mdh| && RowsFit(t, origins, adapters, mdh)
    requires 0 < n <= |mdh| && n <= |q|
    ensures MdhChain(t, Compose(origins[0], adapters[0].Frame()), mdh, q, n)
         == Compose(SceneChain(t, origins, q, n), adapters[n - 1].Frame())
  {
    hide *;
    ChainsUnfold(t, Compose(origins[0], adapters[0].Frame()), origins, mdh, q, n);
    RowTurns(t, mdh[n - 1], q[n - 1]);
    AdapterCommutes(adapters[n - 1], t.cis(q[n - 1]));
    RowsFitAt(t, origins, adapters, mdh, n - 1);
    var b, r := adapters[n - 1].Frame(), RotZPose(t.cis(q[n - 1]));
    if n == 1 {
      FirstRowIsIdentity(t);
      ComposeOrigin(r);
      ComposeOrigin(origins[0]);
      ComposeAssoc(origins[0], b, r);
      ComposeAssoc(origins[0], r, b);
    } else {
      ChainTelescopes(t, origins, adapters, mdh, q, n - 1);
      RowsFitAt(t, origins, adapters, mdh, n - 2);
      var a := adapters[n - 2];
      AdapterCancels(a);
      StepTelescopes(SceneChain(t, origins, q, n - 1), a.Frame(), Inverse(a.Frame()), origins[n - 1], b, r);
    }
  }

  lemma ChainsUnfold(t: Trig, base: Pose, origins: seq<Pose>, mdh: seq<Row>, q: seq<real>, n: nat)
    requires 0 < n <= |mdh| == |origins| && n <= |q|
    ensures MdhChain(t, base, mdh, q, n)
         == Compose(MdhChain(t, base, mdh, q, n - 1), MdhTransform(t, mdh[n - 1], q[n - 1] + mdh[n - 1].offset))
    ensures SceneChain(t, origins, q, n)
         == Compose(Compose(SceneChain(t, origins, q, n - 1), origins[n - 1]), RotZPose(t.cis(q[n - 1])))
    ensures n == 1 ==> MdhChain(t, base, mdh, q, n - 1) == base && SceneChain(t, origins, q, n - 1) == ORIGIN
  {
    hide Compose, MdhTransform, RotZPose;
  }

  lemma RowsFitAt(t: Trig, origins: seq<Pose>, adapters: seq<Adapter>, mdh: seq<Row>, idx: nat)
    requires |origins| == |adapters| == |mdh| && RowsFit(t, origins, adapters, mdh) && idx < |mdh|
    ensures adapters[idx].Valid()
    ensures idx == 0 ==> mdh[0] == Row(0.0, 0.0, 0.0, 0.0) && mdh[0].offset == 0.0
    ensures idx > 0 ==> (MdhTransform(t, mdh[idx], mdh[idx].offset)
                         == Compose(Compose(Inverse(adapters[idx - 1].Frame()), origins[idx]), adapters[idx].Frame()))
  {
    hide Compose, MdhTransform, IsUnit, Inverse;
  }

  // ----- Reading a row off a transform -------------------------------------

  /** a, alpha, d and offset as the exporter reads them off a transform. */
  function ExtractRow(t: Trig, x: Pose): Row {
    var twist := t.atan2(-x.r.k.y, x.r.k.z);
    Row(x.p.x, twist, x.p.z * t.cis(twist).c - x.p.y * t.cis(twist).s, t.atan2(-x.r.j.x, x.r.i.x))
  }

  /** The transforms one Craig row can express: no x in the joint axis, no offset across it. */
  predicate IsCraig(x: Pose) {
    x.r.k.x == 0.0 && x.p.y * x.r.k.z == x.p.z * x.r.k.y
  }

  lemma RowNorms(m: Mat)
    requires IsRotation(m)
    ensures m.i.x * m.i.x + m.j.x * m.j.x + m.k.x * m.k.x == 1.0
    ensures m.i.z * m.i.z + m.j.z * m.j.z + m.k.z * m.k.z == 1.0
  {
    hide IsRotation, Act, Transpose;
    TransposeInverts(m, EX);
    TransposeInverts(m, EZ);
    TransposeColumns(m);
    ActRow(m, m.i.x, m.j.x, m.k.x);
    ActRow(m, m.i.z, m.j.z, m.k.z);
  }

  lemma ActRow(m: Mat, x: real, y: real, z: real)
    ensures Act(m, Vec(x, y, z)).x == x * m.i.x + y * m.j.x + z * m.k.x
    ensures Act(m, Vec(x, y, z)).z == x * m.i.z + y * m.j.z + z * m.k.z
  {
  }

  lemma TransposeColumns(m: Mat)
    ensures Act(Transpose(m), EX) == Vec(m.i.x, m.j.x, m.k.x) && Act(Transpose(m), EZ) == Vec(m.i.z, m.j.z, m.k.z)
  {
    hide Act;
    ActBasis(Transpose(m));
  }

  lemma ExtractedPairs(t: Trig, x: Pose)
    requires t.Valid() && IsRigid(x) && x.r.k.x == 0.0
    ensures var row := ExtractRow(t, x);
            t.cis(row.twist) == Unit(x.r.k.z, -x.r.k.y) && t.cis(row.offset) == Unit(x.r.i.x, -x.r.j.x)
  {
    hide Trig.Valid;
    var k := x.r.k;
    assert k.x * k.x + k.y * k.y + k.z * k.z == 1.0;
    AxisSquares(k.x, k.y, k.z);
    RowNorms(x.r);
    AxisSquares(k.x, x.r.j.x, x.r.i.x);
    t.Atan2Of(-k.y, k.z, 1.0);
    t.Atan2Of(-x.r.j.x, x.r.i.x, 1.0);
  }

  lemma AxisSquares(x: real, y: real, z: real)
    requires x == 0.0
    requires x * x + y * y + z * z == 1.0 || z * z + y * y + x * x == 1.0
    ensures 1.0 * 1.0 == z * z + (-y) * (-y)
  {
  }

  /** A rigid transform is restored by its extracted row exactly when it has Craig's form. */
  lemma ExtractRestoresIff(t: Trig, x: Pose)
    requires t.Valid() && IsRigid(x)
    ensures MdhTransform(t, ExtractRow(t, x), ExtractRow(t, x).offset) == x <==> IsCraig(x)
  {
    hide *;
    var row := ExtractRow(t, x);
    if MdhTransform(t, row, row.offset) == x {
      RowsAreCraig(t, row, row.offset, x);
    }
    if IsCraig(x) {
      CraigIsRestored(t, x);
    }
  }

  lemma RowsAreCraig(t: Trig, row: Row, angle: real, x: Pose)
    requires MdhTransform(t, row, angle) == x
    ensures IsCraig(x)
  {
    var a := t.cis(row.twist);
    OffsetAlongAxis(a.c, a.s, row.distance, x.p.y, x.p.z, x.r.k.y, x.r.k.z);
  }

  lemma CraigIsRestored(t: Trig, x: Pose)
    requires t.Valid() && IsRigid(x) && IsCraig(x)
    ensures MdhTransform(t, ExtractRow(t, x), ExtractRow(t, x).offset) == x
  {
    hide *;
    var row := ExtractRow(t, x);
    CraigParts(x);
    ExtractedPairs(t, x);
    ExtractedOffsets(t, x);
    t.CisUnit(row.twist);
    MdhIsCraig(t, row, row.offset);
    PositionRestored(row, x);
    CraigOf(row, x);
  }

  lemma CraigParts(x: Pose)
    requires IsRigid(x) && IsCraig(x)
    ensures IsRotation(x.r) && x.r.k.x == 0.0
  {
    hide IsRotation;
  }

  lemma PositionRestored(row: Row, x: Pose)
    requires IsCraig(x) && IsUnit(Unit(x.r.k.z, -x.r.k.y))
    requires row.distance == x.p.z * x.r.k.z - x.p.y * (-x.r.k.y)
    ensures x.p.y == -row.distance * (-x.r.k.y) && x.p.z == row.distance * x.r.k.z
  {
    OffsetRestored(x.r.k.z, -x.r.k.y, row.distance, x.p.y, x.p.z);
  }

  lemma CraigOf(row: Row, x: Pose)
    requires IsRotation(x.r) && x.r.k.x == 0.0 && row.length == x.p.x
    requires x.p.y == -row.distance * (-x.r.k.y) && x.p.z == row.distance * x.r.k.z
    ensures Craig(Unit(x.r.k.z, -x.r.k.y), Unit(x.r.i.x, -x.r.j.x), row) == x
  {
    hide *;
    CofactorsFlat(x.r);
    CraigEntries(Unit(x.r.k.z, -x.r.k.y), Unit(x.r.i.x, -x.r.j.x), row);
    CraigRestored(x, Craig(Unit(x.r.k.z, -x.r.k.y), Unit(x.r.i.x, -x.r.j.x), row), row);
  }

  lemma ExtractedOffsets(t: Trig, x: Pose)
    ensures var row := ExtractRow(t, x);
            row.length == x.p.x && row.distance == x.p.z * t.cis(row.twist).c - x.p.y * t.cis(row.twist).s
  {
  }

  lemma CraigEntries(a: Unit, b: Unit, row: Row)
    ensures Craig(a, b, row)
         == Pose(Mat(Vec(b.c, a.c * b.s, a.s * b.s), Vec(-b.s, a.c * b.c, a.s * b.c), Vec(0.0, -a.s, a.c)),
                 Vec(row.length, -row.distance * a.s, row.distance * a.c))
  {
  }

  lemma CraigRestored(x: Pose, y: Pose, row: Row)
    requires y == Pose(Mat(Vec(x.r.i.x, x.r.k.z * (-x.r.j.x), (-x.r.k.y) * (-x.r.j.x)),
                           Vec(-(-x.r.j.x), x.r.k.z * x.r.i.x, (-x.r.k.y) * x.r.i.x),
                           Vec(0.0, x.r.k.y, x.r.k.z)),
                       Vec(row.length, -row.distance * (-x.r.k.y), row.distance * x.r.k.z))
    requires x.r.k.x == 0.0 && row.length == x.p.x
    requires x.r.i.y == x.r.k.z * (-x.r.j.x) && x.r.i.z == (-x.r.k.y) * (-x.r.j.x)
    requires x.r.j.y == x.r.k.z * x.r.i.x && x.r.j.z == (-x.r.k.y) * x.r.i.x
    requires x.p.y == -row.distance * (-x.r.k.y) && x.p.z == row.distance * x.r.k.z
    ensures y == x
  {
  }

  lemma CofactorsFlat(m: Mat)
    requires IsRotation(m) && m.k.x == 0.0
    ensures m.i.y == m.k.z * (-m.j.x) && m.i.z == (-m.k.y) * (-m.j.x)
    ensures m.j.y == m.k.z * m.i.x && m.j.z == (-m.k.y) * m.i.x
  {
    hide IsRotation, Cross;
    RotationCofactors(m);
    CrossEntries(m.j, m.k);
    CrossEntries(m.k, m.i);
    assert m.j.z * m.k.x == 0.0 && m.j.y * m.k.x == 0.0 && m.k.x * m.i.z == 0.0 && m.k.x * m.i.y == 0.0;
  }

  lemma OffsetAlongAxis(c: real, s: real, d: real, py: real, pz: real, ky: real, kz: real)
    requires py == -d * s && pz == d * c && ky == -s && kz == c
    ensures py * kz == pz * ky
  {
  }

  lemma OffsetRestored(c: real, s: real, d: real, py: real, pz: real)
    requires c * c + s * s == 1.0 && d == pz * c - py * s && py * c == pz * (-s)
    ensures py == -d * s && pz == d * c
  {
    assert d * s == pz * c * s - py * (s * s) && d * c == pz * (c * c) - py * c * s;
    assert (py * c) * c == (pz * (-s)) * c && (py * c) * s == (pz * (-s)) * s;
    assert py == py * (c * c + s * s) && pz == pz * (c * c + s * s);
  }

  // ----- Exporting the six-axis model --------------------------------------

  function FirstAdapter(t: Trig, origins: seq<Pose>): Adapter
    requires |origins| == JOINT_COUNT
  {
    Adapter(t.cis(t.pi / 2.0), origins[1].p.z)
  }

  /** The exporter's choice of zeros: quarter turns at the crossing axes, link directions in between. */
  function Adapters(t: Trig, origins: seq<Pose>): seq<Adapter>
    requires |origins| == JOINT_COUNT
    ensures |Adapters(t, origins)| == JOINT_COUNT
  {
    [FirstAdapter(t, origins),
     Adapter(t.cis(t.atan2(origins[2].p.y, origins[2].p.x)), 0.0),
     Adapter(t.cis(t.atan2(origins[3].p.y, origins[3].p.x)), 0.0),
     Adapter(t.cis(t.pi / 2.0), origins[4].p.z),
     Adapter(t.cis(t.pi / 2.0), origins[5].p.z),
     Adapter(t.cis(0.0), 0.0)]
  }

  /** The transform a row has to express. */
  function RowTransform(t: Trig, origins: seq<Pose>, idx: nat): Pose
    requires |origins| == JOINT_COUNT && 0 < idx < JOINT_COUNT
  {
    Between(Adapters(t, origins)[idx - 1], origins[idx], Adapters(t, origins)[idx])
  }

  function ExportedRow(t: Trig, origins: seq<Pose>, idx: nat): Row
    requires |origins| == JOINT_COUNT && idx < JOINT_COUNT
  {
    if idx == 0 then Row(0.0, 0.0, 0.0, 0.0) else ExtractRow(t, RowTransform(t, origins, idx))
  }

  function ExportedRows(t: Trig, origins: seq<Pose>): seq<Row>
    requires |origins| == JOINT_COUNT
  {
    seq(JOINT_COUNT, idx requires 0 <= idx < JOINT_COUNT => ExportedRow(t, origins, idx))
  }

  function VecDifference(a: Vec, b: Vec): real {
    Max(Abs(a.x - b.x), Max(Abs(a.y - b.y), Abs(a.z - b.z)))
  }

  /** The largest entrywise difference. */
  function Difference(a: Pose, b: Pose): real {
    Max(Max(VecDifference(a.r.i, b.r.i), VecDifference(a.r.j, b.r.j)),
        Max(VecDifference(a.r.k, b.r.k), VecDifference(a.p, b.p)))
  }

  /** The difference is at most e exactly when each of the twelve entries differs by at most e. */
  lemma DifferenceIff(a: Pose, b: Pose, e: real)
    ensures Difference(a, b) <= e
       <==> VecWithin(a.r.i, b.r.i, e) && VecWithin(a.r.j, b.r.j, e) && VecWithin(a.r.k, b.r.k, e)
            && VecWithin(a.p, b.p, e)
  {
    hide VecDifference, VecWithin;
    VecDifferenceIff(a.r.i, b.r.i, e);
    VecDifferenceIff(a.r.j, b.r.j, e);
    VecDifferenceIff(a.r.k, b.r.k, e);
    VecDifferenceIff(a.p, b.p, e);
  }

  lemma VecDifferenceIff(a: Vec, b: Vec, e: real)
    ensures VecDifference(a, b) <= e <==> VecWithin(a, b, e)
  {
  }

  ghost predicate RowAccepted(t: Trig, origins: seq<Pose>, idx: nat)
    requires |origins| == JOINT_COUNT && 0 < idx < JOINT_COUNT
  {
    var row := ExportedRow(t, origins, idx);
    Difference(RowTransform(t, origins, idx), MdhTransform(t, row, row.offset)) <= EXPORT_TOLERANCE
  }

  /** Reads the six rows off the joint origins; refuses a chain one of whose transforms is not Craig's. */
  method Export(t: Trig, origins: seq<Pose>) returns (result: Option<seq<Row>>)
    requires |origins| == JOINT_COUNT
    ensures result.Some? ==> result.value == ExportedRows(t, origins)
    ensures result.Some? <==> forall idx :: 0 < idx < JOINT_COUNT ==> RowAccepted(t, origins, idx)
  {
    hide MdhTransform, ExtractRow, Difference, Compose, Inverse, Adapters;
    var adapters := Adapters(t, origins);
    var mdh := [Row(0.0, 0.0, 0.0, 0.0)];
    for idx := 1 to JOINT_COUNT
      invariant |mdh| == idx
      invariant forall k :: 0 <= k < idx ==> mdh[k] == ExportedRow(t, origins, k)
      invariant forall k :: 0 < k < idx ==> RowAccepted(t, origins, k)
    {
      var transform := Compose(Compose(Inverse(adapters[idx - 1].Frame()), origins[idx]), adapters[idx].Frame());
      var row := ExtractRow(t, transform);
      if Difference(transform, MdhTransform(t, row, row.offset)) > EXPORT_TOLERANCE {
        assert !RowAccepted(t, origins, idx);
        return None;
      }
      mdh := mdh + [row];
    }
    result := Some(mdh);
  }

  // ----- Every supported geometry is exported, exactly ---------------------

  lemma BetweenIsRigid(a: Adapter, origin: Pose, b: Adapter)
    requires a.Valid() && b.Valid() && IsRigid(origin)
    ensures IsRigid(Between(a, origin, b))
  {
    hide IsRigid, IsUnit, Compose, Inverse, Adapter.Frame;
    AdapterIsRigid(a);
    AdapterIsRigid(b);
    ComposeIsRigid(a.Frame(), a.Frame());
    ComposeIsRigid(Inverse(a.Frame()), origin);
    ComposeIsRigid(Compose(Inverse(a.Frame()), origin), b.Frame());
  }

  lemma BetweenEntries(a: Adapter, origin: Pose, b: Adapter)
    requires a.Valid()
    ensures var x := Between(a, origin, b);
            && x.r.k == RotZ(Neg(a.u), origin.r.k)
            && x.p == Minus(RotZ(Neg(a.u), Plus(Scale(b.d, origin.r.k), origin.p)), Vec(0.0, 0.0, a.d))
  {
    hide Act, RotZ, IsUnit, Neg;
    RotZMatIsRotation(a.u);
    var back := RotZMat(Neg(a.u));
    ActVertical(Neg(a.u), a.d);
    ActBasis(Product(back, origin.r));
    ActProduct(back, origin.r, Vec(0.0, 0.0, b.d));
    ActAlongAxis(origin.r, b.d);
    ActPlus(back, Scale(b.d, origin.r.k), origin.p);
    ActRotations(Neg(a.u), Plus(Scale(b.d, origin.r.k), origin.p));
    ActRotations(Neg(a.u), origin.r.k);
  }

  lemma ActAlongAxis(m: Mat, d: real)
    ensures Act(m, Vec(0.0, 0.0, d)) == Scale(d, m.k)
  {
    hide Act;
    ActScale(m, d, EZ);
    ActBasis(m);
    assert Scale(d, EZ) == Vec(0.0, 0.0, d);
  }

  lemma OriginsAreRigid(origins: seq<Pose>, idx: nat)
    requires SupportedOrigins(origins) && idx < JOINT_COUNT
    ensures IsRigid(origins[idx])
    ensures origins[idx].r.k == if idx == 1 || idx == 5 then Vec(-1.0, 0.0, 0.0)
                                else if idx == 4 then EX else EZ
  {
    hide IsRotation;
    QuarterIsRotation();
    assert HasTwist(origins, idx);
  }

  /** Turning back by a quarter. */
  lemma QuarterBack(v: Vec)
    ensures RotZ(Neg(QUARTER), v) == Vec(v.y, -v.x, v.z)
  {
  }

  /** Turning a link back by its own direction lays it along x. */
  lemma LinkTurnedBack(t: Trig, v: Vec)
    requires t.Valid()
    ensures RotZ(Neg(t.cis(t.atan2(v.y, v.x))), v).y == 0.0
  {
    hide Trig.Valid;
    var n := v.x * v.x + v.y * v.y;
    SquareSign(v.x);
    SquareSign(v.y);
    t.SqrtOf(n);
    var u := t.cis(t.atan2(v.y, v.x));
    t.Atan2Of(v.y, v.x, t.sqrt(n));
    LinkScalar(t.sqrt(n), u.c, u.s, v.x, v.y);
  }

  lemma LinkScalar(r: real, c: real, s: real, x: real, y: real)
    requires x == r * c && y == r * s
    ensures (-s) * x + c * y == 0.0
  {
  }

  lemma AdaptersAreValid(t: Trig, origins: seq<Pose>)
    requires t.Valid() && |origins| == JOINT_COUNT
    ensures forall idx :: 0 <= idx < JOINT_COUNT ==> Adapters(t, origins)[idx].Valid()
  {
    hide IsUnit;
    forall idx | 0 <= idx < JOINT_COUNT
      ensures Adapters(t, origins)[idx].Valid()
    {
      t.CisUnit(t.pi / 2.0);
      t.CisUnit(0.0);
      t.CisUnit(t.atan2(origins[2].p.y, origins[2].p.x));
      t.CisUnit(t.atan2(origins[3].p.y, origins[3].p.x));
    }
  }

  /** Between crossing axes: the quarter turn lays the next axis across, at the adapter's own height. */
  lemma CraigCrossing(a: Adapter, origin: Pose, b: Adapter)
    requires a.Valid() && a.u == QUARTER && a.d == origin.p.z
    requires origin.r.k == EX || origin.r.k == Vec(-1.0, 0.0, 0.0)
    ensures IsCraig(Between(a, origin, b))
  {
    hide RotZ, Between, Neg, IsUnit, Scale;
    var k, moved := origin.r.k, Plus(Scale(b.d, origin.r.k), origin.p);
    BetweenEntries(a, origin, b);
    QuarterBack(k);
    QuarterBack(moved);
    ScaleAcross(b.d, k);
  }

  lemma ScaleAcross(d: real, k: Vec)
    requires k.z == 0.0
    ensures Scale(d, k).z == 0.0
  {
  }

  lemma ScaleAlong(d: real)
    ensures Scale(d, EZ) == Vec(0.0, 0.0, d)
  {
  }

  /** Between parallel axes: the link's own direction is the next x axis. */
  lemma CraigParallel(t: Trig, a: Adapter, origin: Pose, b: Adapter)
    requires t.Valid() && a.Valid()
    requires a.u == t.cis(t.atan2(origin.p.y, origin.p.x)) && origin.r.k == EZ
    ensures IsCraig(Between(a, origin, b))
  {
    hide RotZ, Between, Neg, IsUnit, Trig.Valid, Scale;
    var moved := Plus(Scale(b.d, EZ), origin.p);
    BetweenEntries(a, origin, b);
    VerticalKept(Neg(a.u));
    ScaleAlong(b.d);
    assert moved.x == origin.p.x && moved.y == origin.p.y;
    LinkTurnedBack(t, moved);
  }

  /** With the supported twists every adapted transform has Craig's form, whatever the link vectors. */
  lemma SupportedIsCraig(t: Trig, origins: seq<Pose>, idx: nat)
    requires t.Valid() && SupportedOrigins(origins) && 0 < idx < JOINT_COUNT
    ensures var x := Between(Adapters(t, origins)[idx - 1], origins[idx], Adapters(t, origins)[idx]);
            IsRigid(x) && IsCraig(x)
  {
    hide IsRigid, IsCraig, Between, Adapters, IsUnit, Trig.Valid, RotYMat;
    AdaptersAreValid(t, origins);
    OriginsAreRigid(origins, idx);
    AdapterBefore(t, origins, idx);
    var a, b := Adapters(t, origins)[idx - 1], Adapters(t, origins)[idx];
    BetweenIsRigid(a, origins[idx], b);
    if idx == 2 || idx == 3 {
      CraigParallel(t, a, origins[idx], b);
    } else {
      QuarterPair(t);
      CraigCrossing(a, origins[idx], b);
    }
  }

  lemma AdapterBefore(t: Trig, origins: seq<Pose>, idx: nat)
    requires |origins| == JOINT_COUNT && 0 < idx < JOINT_COUNT
    ensures var a := Adapters(t, origins)[idx - 1];
            if idx == 2 || idx == 3 then a.u == t.cis(t.atan2(origins[idx].p.y, origins[idx].p.x))
            else a == Adapter(t.cis(t.pi / 2.0), origins[idx].p.z)
  {
  }

  lemma QuarterPair(t: Trig)
    requires t.Valid()
    ensures t.cis(t.pi / 2.0) == QUARTER
  {
  }

  lemma VerticalKept(u: Unit)
    ensures RotZ(u, EZ) == EZ
  {
  }

  /** Row idx can be written: a rigid transform that, seen between its adapters, has Craig's form. */
  predicate CraigRow(t: Trig, origins: seq<Pose>, idx: nat)
    requires |origins| == JOINT_COUNT && 0 < idx < JOINT_COUNT
  {
    IsRigid(origins[idx]) && IsCraig(RowTransform(t, origins, idx))
  }

  /** Every row can be written. */
  ghost predicate Expressible(t: Trig, origins: seq<Pose>) {
    |origins| == JOINT_COUNT && forall idx :: 0 < idx < JOINT_COUNT ==> CraigRow(t, origins, idx)
  }

  lemma SupportedIsExpressible(t: Trig, origins: seq<Pose>)
    requires t.Valid() && SupportedOrigins(origins)
    ensures Expressible(t, origins)
  {
    hide IsRigid, IsCraig, Between, Trig.Valid, HasTwist;
    forall idx: nat | 0 < idx < JOINT_COUNT
      ensures CraigRow(t, origins, idx)
    {
      OriginsAreRigid(origins, idx);
      SupportedIsCraig(t, origins, idx);
    }
  }

  lemma CraigRowFits(t: Trig, origins: seq<Pose>, idx: nat)
    requires t.Valid() && |origins| == JOINT_COUNT && 0 < idx < JOINT_COUNT && CraigRow(t, origins, idx)
    ensures var row := ExportedRow(t, origins, idx);
            MdhTransform(t, row, row.offset) == RowTransform(t, origins, idx)
    ensures RowAccepted(t, origins, idx)
  {
    hide IsRigid, IsCraig, Between, MdhTransform, ExtractRow, Trig.Valid, Adapters, Difference;
    AdaptersAreValid(t, origins);
    var x := RowTransform(t, origins, idx);
    BetweenIsRigid(Adapters(t, origins)[idx - 1], origins[idx], Adapters(t, origins)[idx]);
    ExtractRestoresIff(t, x);
    DifferenceOfEquals(x);
  }

  /** The rows of an expressible chain reproduce every transform, so none is refused. */
  lemma ExpressibleRowsFit(t: Trig, origins: seq<Pose>)
    requires t.Valid() && Expressible(t, origins)
    ensures RowsFit(t, origins, Adapters(t, origins), ExportedRows(t, origins))
    ensures forall idx :: 0 < idx < JOINT_COUNT ==> RowAccepted(t, origins, idx)
  {
    hide CraigRow, Between, MdhTransform, ExtractRow, Trig.Valid, Difference, Adapters;
    AdaptersAreValid(t, origins);
    forall idx: nat | 0 < idx < JOINT_COUNT
      ensures RowAccepted(t, origins, idx)
      ensures var row := ExportedRow(t, origins, idx);
              MdhTransform(t, row, row.offset) == RowTransform(t, origins, idx)
    {
      CraigRowFits(t, origins, idx);
    }
  }

  lemma DifferenceOfEquals(x: Pose)
    ensures Difference(x, x) == 0.0
  {
  }

  // ----- The exported model means what the scene means ---------------------

  /** The model file the exporter writes for the given joint origins. */
  predicate IsExported(t: Trig, m: Model) {
    && |m.origins| == JOINT_COUNT
    && m.mdh == ExportedRows(t, m.origins)
    && m.baseFromMdh == Compose(m.origins[0], FirstAdapter(t, m.origins).Frame())
  }

  /**
    Whatever chain could be expressed, for every joint vector the exported Craig chain and the scene's own chain
    reach the same flange pose.
    */
  lemma ExportKeepsMeaning(t: Trig, m: Model, q: Joints)
    requires t.Valid() && SixAxes(m) && IsExported(t, m) && Expressible(t, m.origins)
    ensures Fk(t, m, q) == Compose(SceneChain(t, m.origins, q, JOINT_COUNT), m.joint6FromFlange)
  {
    hide RowsFit, Compose, MdhTransform, Trig.Valid, ExportedRow, Adapters, CraigRow;
    var adapters := Adapters(t, m.origins);
    ExpressibleRowsFit(t, m.origins);
    ChainTelescopes(t, m.origins, adapters, m.mdh, q, JOINT_COUNT);
    EndAdapters(t, m.origins);
    ComposeOrigin(SceneChain(t, m.origins, q, JOINT_COUNT));
  }

  /** So an exported model passes the loader's comparison of the two chains at every joint vector. */
  lemma ExportedChainsAgree(t: Trig, m: Model)
    requires t.Valid() && SixAxes(m) && IsExported(t, m) && Expressible(t, m.origins)
    ensures ChainsAgree(t, m)
  {
    hide Fk, SceneChain, Compose, IsExported, Trig.Valid, Expressible;
    forall q: Joints
      ensures Fk(t, m, q) == Compose(SceneChain(t, m.origins, q, JOINT_COUNT), m.joint6FromFlange)
    {
      ExportKeepsMeaning(t, m, q);
    }
  }

  /** Writes the whole model: rows, base, origins, flange, and limits from each joint's minimum and range. */
  method ExportModel(t: Trig, origins: seq<Pose>, flange: Pose, minimum: Joints, range: Joints)
    returns (result: Option<Model>)
    requires t.Valid() && |origins| == JOINT_COUNT
    ensures SupportedOrigins(origins) ==> Expressible(t, origins)
    ensures Expressible(t, origins) ==> result.Some?
    ensures result.Some? ==> (
              && var m := result.value;
              && SixAxes(m) && m.origins == origins && m.joint6FromFlange == flange && m.jointMin == minimum
              && (forall k :: 0 <= k < JOINT_COUNT ==> m.jointMax[k] - m.jointMin[k] == range[k])
              && (Expressible(t, origins) ==> ChainsAgree(t, m)))
  {
    hide SupportedOrigins, Expressible, RowAccepted, ExportedRows, ChainsAgree, Compose, FirstAdapter, Adapter.Frame,
         Trig.Valid;
    var rows := Export(t, origins);
    ExpressibleIsAccepted(t, origins);
    if rows == None {
      return None;
    }
    var maximum: Joints := seq(JOINT_COUNT, k requires 0 <= k < JOINT_COUNT => minimum[k] + range[k]);
    var base := Compose(origins[0], FirstAdapter(t, origins).Frame());
    WrittenModelAgrees(t, base, rows.value, origins, flange, minimum, maximum);
    return Some(Model(base, rows.value, origins, flange, minimum, maximum));
  }

  lemma ExpressibleIsAccepted(t: Trig, origins: seq<Pose>)
    requires t.Valid() && |origins| == JOINT_COUNT
    ensures SupportedOrigins(origins) ==> Expressible(t, origins)
    ensures Expressible(t, origins) ==> forall idx :: 0 < idx < JOINT_COUNT ==> RowAccepted(t, origins, idx)
  {
    hide *;
    if SupportedOrigins(origins) {
      SupportedIsExpressible(t, origins);
    }
    if Expressible(t, origins) {
      ExpressibleRowsFit(t, origins);
    }
  }

  lemma WrittenModelAgrees(t: Trig, base: Pose, rows: seq<Row>, origins: seq<Pose>, flange: Pose,
                           minimum: Joints, maximum: Joints)
    requires t.Valid() && |origins| == JOINT_COUNT
    requires rows == ExportedRows(t, origins) && base == Compose(origins[0], FirstAdapter(t, origins).Frame())
    ensures SixAxes(Model(base, rows, origins, flange, minimum, maximum))
    ensures Expressible(t, origins) ==> ChainsAgree(t, Model(base, rows, origins, flange, minimum, maximum))
  {
    hide Expressible, Trig.Valid, ChainsAgree, ExportedRow, Compose, FirstAdapter, Adapter.Frame;
    if Expressible(t, origins) {
      ExportedChainsAgree(t, Model(base, rows, origins, flange, minimum, maximum));
    }
  }

  lemma EndAdapters(t: Trig, origins: seq<Pose>)
    requires t.Valid() && |origins| == JOINT_COUNT
    ensures Adapters(t, origins)[0] == FirstAdapter(t, origins)
    ensures Adapters(t, origins)[5].Frame() == ORIGIN
  {
    t.CisZero();
  }
}

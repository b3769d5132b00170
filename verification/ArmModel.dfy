/** The exported six-axis model as an arm: forward kinematics, joint classes and targets. */
module ArmModel {
  import opened Geometry
  import opened Trigonometry
  import opened RobotModel
  import opened ModelExport
  import opened ArmAlgebra
  import opened JointLifting
  import opened SolutionSet

  function ArmOf(m: Model): Arm
    requires SixAxes(m)
  {
    var o := m.origins;
    Arm(o[0].p, o[1].p, o[2].p, o[3].p, o[4].p, o[5].p)
  }

  function TurnsOf(t: Trig, q: Joints): Turns {
    Turns(t.cis(q[0]), t.cis(q[1]), t.cis(q[2]), t.cis(q[3]), t.cis(q[4]), t.cis(q[5]))
  }

  lemma TurnsAreUnits(t: Trig, q: Joints)
    requires t.Valid()
    ensures AreUnits(TurnsOf(t, q))
  {
    hide IsUnit;
    t.CisUnit(q[0]);
    t.CisUnit(q[1]);
    t.CisUnit(q[2]);
    t.CisUnit(q[3]);
    t.CisUnit(q[4]);
    t.CisUnit(q[5]);
  }

  /** The pose of the sixth joint that puts the flange on the target. */
  function JointTarget(m: Model, target: Pose): Pose {
    Compose(target, Inverse(m.joint6FromFlange))
  }

  // ----- The scene chain carries points the way the arm does ---------------

  lemma SceneStep(t: Trig, origins: seq<Pose>, q: Joints, n: nat, v: Vec)
    requires 0 < n <= JOINT_COUNT == |origins|
    ensures Apply(SceneChain(t, origins, q, n), v)
         == Apply(SceneChain(t, origins, q, n - 1), Apply(origins[n - 1], RotZ(t.cis(q[n - 1]), v)))
  {
    hide Compose, Apply, RotZ, Act;
    var c, o, r := SceneChain(t, origins, q, n - 1), origins[n - 1], RotZPose(t.cis(q[n - 1]));
    ApplyCompose(Compose(c, o), r, v);
    ApplyCompose(c, o, Apply(r, v));
    ApplyTurn(t.cis(q[n - 1]), v);
  }

  lemma ApplyTurn(u: Unit, v: Vec)
    ensures Apply(RotZPose(u), v) == RotZ(u, v)
  {
    hide Act, RotZ;
    ActRotations(u, v);
  }

  lemma ApplyOrigin(origins: seq<Pose>, idx: nat, v: Vec)
    requires SupportedOrigins(origins) && idx < JOINT_COUNT
    ensures Apply(origins[idx], v) == Plus(if idx == 1 || idx == 5 then BackY(v) else if idx == 4 then TurnY(v) else v,
                                           origins[idx].p)
  {
    hide Act, RotY, RotYMat;
    assert HasTwist(origins, idx);
    ActRotations(Twist(idx), v);
    TurnIsRotY(v);
  }

  lemma SceneIsCarry(t: Trig, m: Model, q: Joints, v: Vec)
    requires SixAxes(m) && SupportedOrigins(m.origins)
    ensures Apply(SceneChain(t, m.origins, q, JOINT_COUNT), v) == Carry(ArmOf(m), TurnsOf(t, q), v)
  {
    hide SceneChain, RotZ, Apply, SupportedOrigins;
    var o, u := m.origins, TurnsOf(t, q);
    var v6 := RotZ(u.u6, v);
    var w6 := Apply(o[5], v6);
    SceneStep(t, o, q, 6, v);
    ApplyOrigin(o, 5, v6);
    var w5 := Apply(o[4], RotZ(u.u5, w6));
    SceneStep(t, o, q, 5, w6);
    ApplyOrigin(o, 4, RotZ(u.u5, w6));
    var w4 := Apply(o[3], RotZ(u.u4, w5));
    SceneStep(t, o, q, 4, w5);
    ApplyOrigin(o, 3, RotZ(u.u4, w5));
    var w3 := Apply(o[2], RotZ(u.u3, w4));
    SceneStep(t, o, q, 3, w4);
    ApplyOrigin(o, 2, RotZ(u.u3, w4));
    var w2 := Apply(o[1], RotZ(u.u2, w3));
    SceneStep(t, o, q, 2, w3);
    ApplyOrigin(o, 1, RotZ(u.u2, w3));
    var w1 := Apply(o[0], RotZ(u.u1, w2));
    SceneStep(t, o, q, 1, w2);
    ApplyOrigin(o, 0, RotZ(u.u1, w2));
    SceneStart(t, o, q, w1);
    CarrySteps(ArmOf(m), u, v, w6, w5, w4, w3, w2, w1);
  }

  lemma SceneStart(t: Trig, origins: seq<Pose>, q: Joints, v: Vec)
    requires |origins| == JOINT_COUNT
    ensures Apply(SceneChain(t, origins, q, 0), v) == v
  {
    hide Act;
    ActIdentity(v);
  }

  lemma CarrySteps(a: Arm, u: Turns, v: Vec, w6: Vec, w5: Vec, w4: Vec, w3: Vec, w2: Vec, w1: Vec)
    requires w6 == Plus(BackY(RotZ(u.u6, v)), a.p6) && w5 == Plus(TurnY(RotZ(u.u5, w6)), a.p5)
    requires w4 == Plus(RotZ(u.u4, w5), a.p4) && w3 == Plus(RotZ(u.u3, w4), a.p3)
    requires w2 == Plus(BackY(RotZ(u.u2, w3)), a.p2) && w1 == Plus(RotZ(u.u1, w2), a.p1)
    ensures Carry(a, u, v) == w1
  {
    hide RotZ;
    assert w6 == Plus(a.p6, BackY(RotZ(u.u6, v)));
    assert w5 == Plus(a.p5, TurnY(RotZ(u.u5, w6)));
    assert w4 == Plus(a.p4, RotZ(u.u4, w5));
    assert w3 == Plus(a.p3, RotZ(u.u3, w4));
    assert w2 == Plus(a.p2, BackY(RotZ(u.u2, w3)));
  }

  /** Putting the flange on the target is putting the sixth joint on the joint target. */
  lemma FlangeIff(s: Pose, j: Pose, target: Pose)
    requires IsRigid(j)
    ensures Compose(s, j) == target <==> s == Compose(target, Inverse(j))
  {
    hide *;
    ComposeInverse(j);
    ComposeAssoc(s, j, Inverse(j));
    ComposeAssoc(target, Inverse(j), j);
    ComposeOrigin(s);
    ComposeOrigin(target);
  }

  lemma TargetOf(m: Model, target: Pose)
    ensures JointTarget(m, target) == Compose(target, Inverse(m.joint6FromFlange))
  {
    hide Compose, Inverse;
  }

  /** Forward kinematics reaches the target exactly when the joint classes satisfy the arm's equations. */
  lemma FkIff(t: Trig, m: Model, q: Joints, target: Pose)
    requires t.Valid() && SixAxes(m) && SupportedOrigins(m.origins) && ChainsAgree(t, m) && IsRigid(m.joint6FromFlange)
    ensures Fk(t, m, q) == target <==> Meets(ArmOf(m), TurnsOf(t, q), JointTarget(m, target))
  {
    hide Compose, Inverse, IsRigid, Apply, Carry, Meets, Trig.Valid, SceneChain, Fk, SupportedOrigins, JointTarget;
    var scene, jt := SceneChain(t, m.origins, q, JOINT_COUNT), JointTarget(m, target);
    TargetOf(m, target);
    FlangeIff(scene, m.joint6FromFlange, target);
    TurnsAreUnits(t, q);
    HitsIff(ArmOf(m), TurnsOf(t, q), jt);
    forall v ensures Apply(scene, v) == Carry(ArmOf(m), TurnsOf(t, q), v) {
      SceneIsCarry(t, m, q, v);
    }
    if Hits(ArmOf(m), TurnsOf(t, q), jt) {
      PoseByAction(scene, jt);
    }
  }

  // ----- Joint classes -----------------------------------------------------

  lemma SameTurns(t: Trig, a: Joints, b: Joints)
    requires t.Valid()
    ensures SameClass(t.pi, a, b) <==> TurnsOf(t, a) == TurnsOf(t, b)
  {
    hide Trig.Valid, Shift;
    forall idx | 0 <= idx < JOINT_COUNT
      ensures ShiftApart(t.pi, a[idx], b[idx]) <==> t.cis(a[idx]) == t.cis(b[idx])
    {
      ShiftIsCongruent(t, a[idx], b[idx]);
    }
  }

  lemma ShiftIsCongruent(t: Trig, a: real, b: real)
    requires t.Valid()
    ensures ShiftApart(t.pi, a, b) <==> t.cis(a) == t.cis(b)
  {
    t.CongruentIffCis(a, b);
    if ShiftApart(t.pi, a, b) {
      var k: int :| a == Shift(t.pi, b, k);
      assert a == b + t.FullTurns(k);
    }
    if t.Congruent(a, b) {
      var k: int :| a == b + t.FullTurns(k);
      assert a == Shift(t.pi, b, k);
    }
  }

  /** Shifting joints by whole turns does not move the flange. */
  lemma FkOfClass(t: Trig, m: Model, a: Joints, b: Joints)
    requires t.Valid() && SixAxes(m) && SupportedOrigins(m.origins) && ChainsAgree(t, m) && IsRigid(m.joint6FromFlange)
    requires SameClass(t.pi, a, b)
    ensures Fk(t, m, a) == Fk(t, m, b)
  {
    hide Fk, Meets, ChainsAgree, IsRigid, Trig.Valid, SupportedOrigins;
    SameTurns(t, a, b);
    FkIff(t, m, a, Fk(t, m, b));
    FkIff(t, m, b, Fk(t, m, b));
  }
}

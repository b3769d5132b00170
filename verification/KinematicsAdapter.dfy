/** The pending replies of the motion service, keyed by task. */
module KinematicsAdapter {
  import opened ErrorCodes
  import opened Options
  import opened MotionProcessor

  datatype Module = Backend | Algorithm | Motion | Frontend

  datatype Kind = MotionStatus | FaultReport | OtherKind

  /** Received business data: shaped like a plan, or anything else with at most a task id. */
  datatype Data = Shaped(plan: PlanData) | Unshaped(taskId: Option<string>)

  function TaskIdOf(d: Data): Option<string> {
    if d.Shaped? then Some(d.plan.taskId) else d.taskId
  }

  datatype Message = Message(source: Module, kind: Kind, code: int, data: Data)

  datatype Future = Waiting | Resolved(data: Data) | Broken(code: int)

  type Pending = map<string, Future>

  // ----- Specifications ----------------------------------------------------

  function Settled(f: Future, outcome: Future): Future {
    if f == Waiting then outcome else f
  }

  /** Every waiting reply fails; a reply that is already there stays. */
  function AllBroken(pending: Pending): Pending {
    map id | id in pending :: Settled(pending[id], Broken(TARGET_OFFLINE))
  }

  predicate IsFeedback(m: Message) {
    m.source == Motion && (m.kind == MotionStatus || m.kind == FaultReport)
  }

  predicate IsEmergencyStop(m: Message) {
    IsFeedback(m) && m.code == EMERGENCY_STOP
  }

  function Outcome(m: Message): Future {
    if m.code != 0 || m.kind == FaultReport then Broken(if m.code != 0 then m.code else MOTION_EXEC_FAILED)
    else Resolved(m.data)
  }

  /** The pending replies after a message: an emergency stop breaks all, a reply settles its own task only. */
  function Delivered(pending: Pending, m: Message): Pending {
    if !IsFeedback(m) then pending
    else if m.code == EMERGENCY_STOP then AllBroken(pending)
    else
      var id := TaskIdOf(m.data);
      if id.Some? && id.value in pending then pending[id.value := Settled(pending[id.value], Outcome(m))] else pending
  }

  /** Every reply that is there belongs to the task it is filed under. */
  ghost predicate Correlated(pending: Pending) {
    forall id :: id in pending && pending[id].Resolved? ==> TaskIdOf(pending[id].data) == Some(id)
  }

  /** What feedback that names a waiting task leaves there: the data of a success, or the code of a failure. */
  lemma ReplyIsFiled(pending: Pending, m: Message, id: string)
    requires id in pending && pending[id] == Waiting && m.code != EMERGENCY_STOP
    requires m.source == Motion && (m.kind == MotionStatus || m.kind == FaultReport)
    requires (m.data.Shaped? && m.data.plan.taskId == id) || (m.data.Unshaped? && m.data.taskId == Some(id))
    ensures m.code == 0 && m.kind == MotionStatus ==> Delivered(pending, m) == pending[id := Resolved(m.data)]
    ensures m.code == 0 && m.kind == FaultReport ==>
              Delivered(pending, m) == pending[id := Broken(MOTION_EXEC_FAILED)]
    ensures m.code != 0 ==> Delivered(pending, m) == pending[id := Broken(m.code)]
  {
  }

  /** An emergency stop, or the loss of the motion service, tells every waiting task that its target is offline. */
  lemma StopIsFiled(pending: Pending, m: Message, id: string)
    requires m.source == Motion && (m.kind == MotionStatus || m.kind == FaultReport) && m.code == EMERGENCY_STOP
    requires id in pending
    ensures Delivered(pending, m) == AllBroken(pending) && AllBroken(pending).Keys == pending.Keys
    ensures AllBroken(pending)[id] == if pending[id] == Waiting then Broken(TARGET_OFFLINE) else pending[id]
  {
  }

  /** A message never adds or removes a task, never changes a settled reply, and files data under its own task. */
  lemma DeliveryIsCorrelated(pending: Pending, m: Message)
    requires Correlated(pending)
    ensures Correlated(Delivered(pending, m)) && Delivered(pending, m).Keys == pending.Keys
    ensures forall id :: id in pending && pending[id] != Waiting ==> Delivered(pending, m)[id] == pending[id]
  {
  }

  /** A reply that is no emergency stop, for a task that is unknown or no longer waiting, changes nothing. */
  lemma StrayReplyIsIgnored(pending: Pending, m: Message)
    requires m.code != EMERGENCY_STOP
    requires TaskIdOf(m.data).Some? ==> TaskIdOf(m.data).value !in pending || pending[TaskIdOf(m.data).value] != Waiting
    ensures Delivered(pending, m) == pending
  {
    var id := TaskIdOf(m.data);
    if id.Some? && id.value in pending {
      assert pending[id.value := pending[id.value]] == pending;
    }
  }

  function DeliveredAll(pending: Pending, messages: seq<Message>): Pending {
    if messages == [] then pending
    else Delivered(DeliveredAll(pending, messages[..|messages| - 1]), messages[|messages| - 1])
  }

  /** The same replies for every task but one. */
  ghost predicate AgreeElsewhere(p: Pending, q: Pending, id: string) {
    forall k :: k != id ==> (k in p <==> k in q) && (k in p ==> p[k] == q[k])
  }

  lemma DeliveryAgreesElsewhere(p: Pending, q: Pending, id: string, m: Message)
    requires AgreeElsewhere(p, q, id)
    ensures AgreeElsewhere(Delivered(p, m), Delivered(q, m), id)
  {
  }

  lemma {:induction false} DeliveriesAgreeElsewhere(p: Pending, q: Pending, id: string, messages: seq<Message>)
    requires AgreeElsewhere(p, q, id)
    ensures AgreeElsewhere(DeliveredAll(p, messages), DeliveredAll(q, messages), id)
    ensures DeliveredAll(q, messages).Keys == q.Keys
  {
    hide AgreeElsewhere;
    if messages != [] {
      var front, last := messages[..|messages| - 1], messages[|messages| - 1];
      DeliveriesAgreeElsewhere(p, q, id, front);
      DeliveryAgreesElsewhere(DeliveredAll(p, front), DeliveredAll(q, front), id, last);
    }
  }

  /** A plan is invisible to every other task: whatever arrives meanwhile, it leaves the replies as if it never was. */
  lemma PlanLeavesNoTrace(pending: Pending, id: string, messages: seq<Message>)
    requires id !in pending
    ensures DeliveredAll(pending[id := Waiting], messages) - {id} == DeliveredAll(pending, messages)
  {
    DeliveriesAgreeElsewhere(pending[id := Waiting], pending, id, messages);
  }

  // ----- The adapter -------------------------------------------------------

  class Adapter {
    var pending: Pending
    ghost var departures: seq<Module>

    constructor ()
      ensures pending == map[] && departures == []
    {
      pending, departures := map[], [];
    }

    /** The first stretch of plan: file a waiting reply. */
    method BeginPlan(id: string)
      modifies this`pending
      ensures pending == old(pending)[id := Waiting]
    {
      pending := pending[id := Waiting];
    }

    /** The last stretch of plan, whatever ended it: the reply is no longer pending. */
    method EndPlan(id: string)
      modifies this`pending
      ensures pending == old(pending) - {id}
    {
      pending := pending - {id};
    }

    /** Takes a message of the motion service; returns whether it was one. */
    method OnMessage(m: Message) returns (consumed: bool)
      modifies this
      ensures consumed <==> IsFeedback(m)
      ensures pending == Delivered(old(pending), m)
      ensures departures == old(departures) + if IsEmergencyStop(m) then [Motion] else []
    {
      if m.source != Motion {
        return false;
      }
      if m.kind != MotionStatus && m.kind != FaultReport {
        return false;
      }
      var id := TaskIdOf(m.data);
      if m.code == EMERGENCY_STOP {
        OnDisconnect(Motion);
      } else if id.Some? && id.value in pending && pending[id.value] == Waiting {
        if m.code != 0 || m.kind == FaultReport {
          pending := pending[id.value := Broken(if m.code != 0 then m.code else MOTION_EXEC_FAILED)];
        } else {
          pending := pending[id.value := Resolved(m.data)];
        }
      } else {
        StrayReplyIsIgnored(pending, m);
      }
      return true;
    }

    /** The motion service went away: every waiting reply fails at once. departures lists the calls of this method. */
    method OnDisconnect(module': Module)
      modifies this
      ensures pending == if module' == Motion then AllBroken(old(pending)) else old(pending)
      ensures departures == old(departures) + [module']
    {
      departures := departures + [module'];
      if module' != Motion {
        return;
      }
      var todo := pending.Keys;
      while todo != {}
        invariant todo <= pending.Keys == old(pending).Keys
        invariant departures == old(departures) + [module']
        invariant forall id :: id in todo ==> pending[id] == old(pending)[id]
        invariant forall id :: id in pending && id !in todo ==>
                    pending[id] == Settled(old(pending)[id], Broken(TARGET_OFFLINE))
        decreases todo
      {
        var id :| id in todo;
        if pending[id] == Waiting {
          pending := pending[id := Broken(TARGET_OFFLINE)];
        }
        todo := todo - {id};
      }
    }
  }
}

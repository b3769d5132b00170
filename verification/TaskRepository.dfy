/** The table of planning tasks: guarded inserts and updates, as specifications and as in-place operations. */
module TaskRepository {
  import opened ErrorCodes
  import opened Options
  import opened MotionProcessor

  datatype Status = Planning | Completed | Failed | Interrupted

  datatype TaskError = TaskError(code: int, msg: string)

  datatype Record = Record(status: Status, request: Payload, result: Option<PlanData>, error: Option<TaskError>)

  type Table = map<string, Record>

  const RESTARTED := TaskError(MOTION_EXEC_FAILED, "backend restarted, task interrupted; not sent again")

  predicate IsPlanning(table: Table, id: string) {
    id in table && table[id].status == Planning
  }

  // ----- Specifications ----------------------------------------------------

  function Created(table: Table, id: string, request: Payload): Table {
    table[id := Record(Planning, request, None, None)]
  }

  /** Only a planning record is moved to a final state. */
  function Finished(table: Table, id: string, status: Status, result: Option<PlanData>, error: Option<TaskError>)
    : Table
  {
    if IsPlanning(table, id) then table[id := Record(status, table[id].request, result, error)] else table
  }

  function RecoveredRecord(r: Record): Record {
    if r.status == Planning then Record(Interrupted, r.request, r.result, Some(RESTARTED)) else r
  }

  function Recovered(table: Table): Table {
    map id | id in table :: RecoveredRecord(table[id])
  }

  function PlanningIds(table: Table): set<string> {
    set id | id in table && table[id].status == Planning
  }

  /** What no update ever does: forget a task, change its request, or touch a record in a final state. */
  ghost predicate Preserves(before: Table, after: Table) {
    && before.Keys <= after.Keys
    && (forall id :: id in before ==> after[id].request == before[id].request)
    && (forall id :: id in before && before[id].status != Planning ==> after[id] == before[id])
  }

  lemma CreationPreserves(table: Table, id: string, request: Payload)
    requires id !in table
    ensures Preserves(table, Created(table, id, request))
    ensures PlanningIds(Created(table, id, request)) == PlanningIds(table) + {id}
  {
  }

  lemma FinishPreserves(table: Table, id: string, status: Status, result: Option<PlanData>, error: Option<TaskError>)
    requires status != Planning
    ensures Preserves(table, Finished(table, id, status, result, error))
    ensures PlanningIds(Finished(table, id, status, result, error)) == PlanningIds(table) - {id}
  {
  }

  /** Recovery keeps history and leaves no task planning. */
  lemma RecoveryPreserves(table: Table)
    ensures Preserves(table, Recovered(table)) && PlanningIds(Recovered(table)) == {}
  {
  }

  // ----- The repository ----------------------------------------------------

  class Repository {
    var table: Table

    constructor ()
      ensures table == map[]
    {
      table := map[];
    }

    /** Marks every unfinished task interrupted, record by record, and returns how many there were. */
    method RecoverInterrupted() returns (count: nat)
      modifies this
      ensures table == Recovered(old(table)) && count == |PlanningIds(old(table))|
      ensures PlanningIds(table) == {} && Preserves(old(table), table)
      ensures forall id :: id in old(table) && old(table)[id].status == Planning ==>
                && table[id].status == Interrupted && table[id].request == old(table)[id].request
                && table[id].result == old(table)[id].result && table[id].error == Some(RESTARTED)
    {
      hide Preserves;
      var todo := PlanningIds(table);
      count := 0;
      while todo != {}
        invariant todo <= PlanningIds(old(table)) && count + |todo| == |PlanningIds(old(table))|
        invariant table.Keys == old(table).Keys
        invariant forall id :: id in table ==>
                    table[id] == if id in todo then old(table)[id] else RecoveredRecord(old(table)[id])
        decreases todo
      {
        var id :| id in todo;
        table := table[id := Record(Interrupted, table[id].request, table[id].result, Some(RESTARTED))];
        todo := todo - {id};
        count := count + 1;
      }
      RecoveryPreserves(old(table));
    }

    /** Inserts a planning record; a repeated id is refused and changes nothing. */
    method Create(id: string, request: Payload) returns (ok: bool)
      modifies this
      ensures ok <==> id !in old(table)
      ensures table == if ok then Created(old(table), id, request) else old(table)
    {
      ok := id !in table;
      if ok {
        table := table[id := Record(Planning, request, None, None)];
      }
    }

    /** Moves a planning record to a final state; returns whether it did. A state that is not final is refused. */
    method Finish(id: string, status: Status, result: Option<PlanData>, error: Option<TaskError>)
      returns (updated: Option<bool>)
      modifies this
      ensures updated == if status == Planning then None else Some(IsPlanning(old(table), id))
      ensures table == if status == Planning then old(table) else Finished(old(table), id, status, result, error)
    {
      if status == Planning {
        return None;
      }
      if id in table && table[id].status == Planning {
        table := table[id := Record(status, table[id].request, result, error)];
        return Some(true);
      }
      return Some(false);
    }

    method Get(id: string) returns (record: Option<Record>)
      ensures record == if id in table then Some(table[id]) else None
    {
      record := if id in table then Some(table[id]) else None;
    }
  }
}

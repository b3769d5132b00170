/** The gateway never gets stuck, and the ways in which a planning record loses its owner really occur. */
module GatewayProgress {
  import opened Options
  import opened MotionProcessor
  import opened PlanValidation
  import opened TaskRepository
  import opened KinematicsAdapter
  import opened Gateway
  import opened GatewayProof

  // ----- Progress ----------------------------------------------------------

  /** Steps the gateway takes on its own: no client, no motion service, no crash and no operator is needed. */
  predicate IsOwn(step: Step) {
    !(step.Submit? || step.CancelSubmit? || step.Receive? || step.Connect? || step.Disconnect? || step.CloseRequested?
      || step.Crash? || step.Restart?)
  }

  function SubmissionRank(c: Submission): nat {
    match c
    case Idle => 0
    case Creating(_, _, inserted, _) => if inserted then 9 else 10
    case Withdrawing(_, written) => if written then 1 else 2
  }

  function WorkerRank(w: Worker): nat {
    match w
    case NoWorker => 0
    case Scheduled(_, _) => 8
    case Sending(_, _, written) => if written then 6 else 7
    case Awaiting(_, _) => 5
    case Finishing(_, _, _, _, written) => if written then 1 else 2
  }

  function ShutdownRank(c: Shutdown): nat {
    match c
    case Open => 0
    case Requested => 4
    case Stopping => 3
    case Clearing(_, written) => if written then 1 else 2
    case Closed => 0
  }

  /** How many own steps are left at most before the gateway is at rest. */
  function Rank(g: State): nat {
    SubmissionRank(g.submission) + WorkerRank(g.worker) + ShutdownRank(g.shutdown) + |g.late|
  }

  lemma InsertRunsOut(g: State)
    requires g.submission.Creating?
    ensures !g.submission.inserted ==> Rank(Inserted(g)) < Rank(g)
    ensures g.submission.inserted ==> Rank(Resumed(g)) < Rank(g)
  {
    hide Created;
  }

  lemma WithdrawalRunsOut(g: State)
    requires g.submission.Withdrawing?
    ensures !g.submission.written ==> Rank(Withdrawn(g)) < Rank(g)
    ensures Rank(SubmitEnds(g)) < Rank(g)
  {
    hide Finished;
  }

  lemma ScheduledRunsOut(g: State)
    requires g.worker != NoWorker
    ensures Rank(WorkerGone(g)) < Rank(g) && Rank(WorkerGone(g).(active := None)) < Rank(g)
    ensures g.worker.Scheduled? ==> Rank(Started(g)) < Rank(g)
  {
  }

  lemma SendingRunsOut(g: State)
    requires g.worker.Sending?
    ensures !g.worker.written ==> Rank(Written(g)) < Rank(g)
    ensures Rank(Sent(g)) < Rank(g) && Rank(SendFailed(g)) < Rank(g)
  {
    hide AllBroken;
  }

  lemma ConclusionRank(s: Settings, id: string, request: Payload, reply: Future)
    ensures WorkerRank(Concluded(s, id, request, reply)) == 2
  {
    hide Accepts;
  }

  lemma PlanRunsOut(s: Settings, g: State)
    requires InPlan(g)
    ensures g.worker.Awaiting? && g.worker.id in g.pending ==> Rank(Replied(s, g)) < Rank(g)
    ensures Rank(TimedOut(g)) < Rank(g)
  {
    hide Concluded;
    if g.worker.Awaiting? && g.worker.id in g.pending {
      ConclusionRank(s, g.worker.id, g.worker.request, g.pending[g.worker.id]);
    }
  }

  lemma FinishRunsOut(g: State)
    requires g.worker.Finishing? && !g.worker.written
    ensures Rank(FinishWritten(g)) < Rank(g)
  {
    hide Finished;
  }

  /** A final write that is overtaken becomes a late write. */
  lemma StopRunsOut(g: State)
    requires InPlan(g) || g.worker.Finishing?
    ensures Rank(Stopped(g)) < Rank(g)
  {
    if g.worker.Finishing? {
      StopFinishingRunsOut(g, g.worker.id, LateFinish(g.worker.status, g.worker.result, g.worker.error));
    }
  }

  lemma StopFinishingRunsOut(g: State, id: string, w: LateWrite)
    requires g.worker.Finishing? && id == g.worker.id
    requires w == LateFinish(g.worker.status, g.worker.result, g.worker.error)
    ensures Rank(Stopped(g)) < Rank(g)
  {
    OneMore(g.late, id, w);
  }

  lemma OneMore(late: map<string, LateWrite>, id: string, w: LateWrite)
    ensures |late[id := w]| <= |late| + 1
  {
  }

  lemma LockRunsOut(g: State)
    ensures g.shutdown == Requested ==> Rank(Locked(g)) < Rank(g)
    ensures g.shutdown == Stopping ==> Rank(Cleared(g)) < Rank(g)
  {
  }

  lemma ClearRunsOut(g: State)
    requires g.shutdown.Clearing?
    ensures !g.shutdown.written ==> Rank(ClearWritten(g)) < Rank(g)
    ensures Rank(CloseEnds(g)) < Rank(g)
  {
    hide Finished;
  }

  lemma LateRunsOut(g: State, id: string)
    requires id in g.late
    ensures Rank(LateWritten(g, id)) < Rank(g) && Rank(g.(late := g.late - {id})) < Rank(g)
  {
    hide Late;
    assert g.late == (g.late - {id})[id := g.late[id]];
  }

  /** Every own step uses up some of the rank, whatever the motion service does. */
  lemma OwnStepsRunOut(s: Settings, g: State, step: Step)
    requires Enabled(g, step) && IsOwn(step)
    ensures Rank(After(s, g, step)) < Rank(g)
  {
    hide Rank, Submitted, Inserted, Resumed, CancelledSubmission, Withdrawn, Started, Written, Sent, SendFailed,
         Replied, TimedOut, Stopped, FinishWritten, WorkerGone, Delivered, Disconnected, Locked, Cleared,
         ClearWritten, CloseEnds, SubmitEnds, LateWritten, Crashed, Restarted;
    match step
    case InsertCommitted => InsertRunsOut(g);
    case SubmitResumes => InsertRunsOut(g);
    case WithdrawCommitted => WithdrawalRunsOut(g);
    case WithdrawResumes => WithdrawalRunsOut(g);
    case WorkerStarts => ScheduledRunsOut(g);
    case WorkerNeverStarts => ScheduledRunsOut(g);
    case WorkerClears => ScheduledRunsOut(g);
    case CommandWritten => SendingRunsOut(g);
    case SendSucceeds => SendingRunsOut(g);
    case SendFails => SendingRunsOut(g);
    case WorkerResumes => PlanRunsOut(s, g);
    case TimesOut => PlanRunsOut(s, g);
    case FinishCommitted => FinishRunsOut(g);
    case WorkerStops => StopRunsOut(g);
    case CloseLocks => LockRunsOut(g);
    case CloseContinues => LockRunsOut(g);
    case ClearCommitted => ClearRunsOut(g);
    case ClearResumes => ClearRunsOut(g);
    case LateCommit(id) => LateRunsOut(g, id);
    case LateDropped(id) => LateRunsOut(g, id);
    case _ =>
  }

  /** A task is active, or close has begun and not ended. */
  predicate IsBusy(g: State) {
    g.active.Some? || !(g.shutdown.Open? || g.shutdown.Closed?)
  }

  /** A busy gateway can always move on by itself: a reply that never comes is ended by the timeout. */
  lemma BusyGatewayMovesOn(s: Settings, g: State) returns (step: Step)
    requires Inv(s, g) && g.up && IsBusy(g)
    ensures IsOwn(step) && Enabled(g, step) && !step.SendFails?
  {
    hide Accepts, RecordsFit, LateFits, HistoryFits, Correlated, Agreement;
    match g.submission
    case Creating(_, _, inserted, _) => step := if inserted then SubmitResumes else InsertCommitted;
    case Withdrawing(_, written) => step := if written then WithdrawResumes else WithdrawCommitted;
    case Idle =>
      match g.worker
      case Scheduled(_, _) => step := if g.stopWorker then WorkerNeverStarts else WorkerStarts;
      case Sending(_, _, _) => step := TimesOut;
      case Awaiting(_, _) => step := TimesOut;
      case Finishing(_, _, _, _, written) => step := if written then WorkerClears else FinishCommitted;
      case NoWorker =>
        match g.shutdown
        case Requested => step := CloseLocks;
        case Clearing(_, written) => step := if written then ClearResumes else ClearCommitted;
        case _ => step := CloseContinues;
  }

  /** How far close has come, and whether the motion service is connected. */
  predicate SameDoor(g: State, h: State) {
    h.shutdown == g.shutdown && h.online == g.online
  }

  lemma SubmissionKeepsDoor(g: State)
    ensures g.submission.Creating? ==> SameDoor(g, Inserted(g)) && SameDoor(g, Resumed(g))
    ensures g.submission.Withdrawing? ==> SameDoor(g, Withdrawn(g))
  {
    hide Created, Finished;
  }

  lemma PlanKeepsDoor(s: Settings, g: State)
    ensures g.worker.Scheduled? ==> SameDoor(g, Started(g))
    ensures g.worker.Sending? ==> SameDoor(g, Written(g)) && SameDoor(g, Sent(g))
    ensures g.worker.Awaiting? && g.worker.id in g.pending ==> SameDoor(g, Replied(s, g))
    ensures InPlan(g) ==> SameDoor(g, TimedOut(g))
  {
    hide Concluded;
  }

  lemma EndKeepsDoor(g: State)
    ensures InPlan(g) || g.worker.Finishing? ==> SameDoor(g, Stopped(g))
    ensures g.worker.Finishing? ==> SameDoor(g, FinishWritten(g))
    ensures g.worker.Sending? ==> SendFailed(g).shutdown == g.shutdown
  {
    hide Finished, AllBroken;
  }

  /** An own step never reopens a gateway, and an open one stays as open and as online as it was, sends aside. */
  lemma StaysOpen(s: Settings, g: State, step: Step)
    requires Enabled(g, step) && IsOwn(step)
    ensures g.shutdown == Open && !step.SendFails? ==> SameDoor(g, After(s, g, step))
    ensures g.shutdown != Open ==> After(s, g, step).shutdown != Open
  {
    hide Inserted, Resumed, Withdrawn, Started, Written, Sent, Replied, TimedOut, Stopped, FinishWritten, SendFailed,
         Late, Finished, Submitted, CancelledSubmission, Delivered, AllBroken, Restarted;
    SubmissionKeepsDoor(g);
    PlanKeepsDoor(s, g);
    EndKeepsDoor(g);
  }

  /** Every valid request with a fresh id is taken up at once. */
  ghost predicate IsReady(s: Settings, g: State) {
    forall id, request :: id !in g.used && ValidRequest(s, request) ==> TakesUp(s, g, id, request)
  }

  predicate TakesUp(s: Settings, g: State, id: string, request: Payload) {
    && Enabled(g, Submit(id, request))
    && After(s, g, Submit(id, request)) == g.(active := Some(id), used := g.used + {id},
                                              submission := Creating(id, request, false, false))
  }

  /** At rest, an open and online gateway is ready. */
  lemma RestIsReady(s: Settings, g: State)
    requires Inv(s, g) && g.up && g.active == None && g.shutdown == Open && g.online
    ensures IsReady(s, g)
  {
    hide ValidRequest, Accepts, RecordsFit, LateFits, HistoryFits, Correlated, Agreement;
    forall id, request | id !in g.used && ValidRequest(s, request)
      ensures TakesUp(s, g, id, request)
    {
      SubmissionIsTakenIff(s, g, id, request);
    }
  }

  /** A stretch of own steps from g on. */
  ghost predicate IsOwnStretch(s: Settings, g: State, states: seq<State>, steps: seq<Step>) {
    && |states| == |steps| + 1 && states[0] == g
    && forall i :: 0 <= i < |steps| ==> IsOwn(steps[i]) && Follows(s, states[i], steps[i], states[i + 1])
  }

  /**
    From every state a running gateway can reach, a bounded number of its own steps frees it for the next request:
    no reply, no client and no restart is needed. If it was open and online, it then takes up any valid request; if
    close had begun, it is closed.
    */
  lemma {:induction false} ComesToRest(s: Settings, g: State) returns (states: seq<State>, steps: seq<Step>)
    requires Inv(s, g) && g.up
    ensures IsOwnStretch(s, g, states, steps) && |steps| <= Rank(g)
    ensures states[|steps|].up && states[|steps|].active == None && Inv(s, states[|steps|])
    ensures g.shutdown == Open && g.online ==> IsReady(s, states[|steps|])
    ensures g.shutdown != Open ==> states[|steps|].shutdown == Closed
    decreases Rank(g)
  {
    hide Inv, After, Enabled, Rank, Evolves, Crashed, Restarted, MakesOrphan, IsReady;
    if !IsBusy(g) {
      if g.shutdown == Open && g.online {
        RestIsReady(s, g);
      }
      return [g], [];
    }
    var step := BusyGatewayMovesOn(s, g);
    var h := After(s, g, step);
    OwnStepsRunOut(s, g, step);
    StepKeeps(s, g, step);
    StaysOpen(s, g, step);
    var rest, more := ComesToRest(s, h);
    states, steps := [g] + rest, [step] + more;
    forall i | 0 <= i < |steps|
      ensures IsOwn(steps[i]) && Follows(s, states[i], steps[i], states[i + 1])
    {
      if i > 0 {
        assert IsOwn(more[i - 1]) && Follows(s, rest[i - 1], more[i - 1], rest[i]);
      }
    }
  }

  // ----- The two races do abandon tasks ------------------------------------

  ghost predicate IsRunTo(s: Settings, states: seq<State>, steps: seq<Step>, g: State) {
    IsRun(s, states, steps) && states[|steps|] == g
  }

  lemma Extend(s: Settings, states: seq<State>, steps: seq<Step>, g: State, step: Step, h: State)
    returns (states': seq<State>, steps': seq<Step>)
    requires IsRunTo(s, states, steps, g) && Follows(s, g, step, h)
    ensures IsRunTo(s, states', steps', h) && |steps'| > 0 && states'[|steps'| - 1] == g
  {
    hide Follows;
    states', steps' := states + [h], steps + [step];
    forall i | 0 <= i < |steps'|
      ensures Follows(s, states'[i], steps'[i], states'[i + 1])
    {
      if i < |steps| {
        assert Follows(s, states[i], steps[i], states[i + 1]);
      }
    }
  }

  /** Up and online with one recorded task whose worker is about to save the given failure. */
  function AboutToSave(id: string, request: Payload, shutdown: Shutdown): State {
    INITIAL.(up := true, online := true, table := map[id := Record(Planning, request, None, None)], active := Some(id),
             used := {id}, worker := Finishing(id, Failed, None, Some(TIMED_OUT), false), shutdown := shutdown,
             stopWorker := shutdown == Stopping)
  }

  /** Up and online with one task whose record has just been written. */
  function JustRecorded(id: string, request: Payload): State {
    INITIAL.(up := true, online := true, table := map[id := Record(Planning, request, None, None)], active := Some(id),
             used := {id}, submission := Creating(id, request, true, false))
  }

  /** Up and online with one task whose record is still to be written. */
  function JustSubmitted(id: string, request: Payload): State {
    INITIAL.(up := true, online := true, active := Some(id), used := {id},
             submission := Creating(id, request, false, false))
  }

  lemma RunToCreation(s: Settings, id: string, request: Payload) returns (states: seq<State>, steps: seq<Step>)
    requires ValidRequest(s, request)
    ensures IsRunTo(s, states, steps, JustSubmitted(id, request))
  {
    hide IsRunTo, ValidRequest;
    var g0 := INITIAL.(up := true);
    var g1 := g0.(online := true);
    StartsRun(s);
    states, steps := Extend(s, [INITIAL], [], INITIAL, Restart, g0);
    states, steps := Extend(s, states, steps, g0, Connect, g1);
    states, steps := Extend(s, states, steps, g1, Submit(id, request), JustSubmitted(id, request));
  }

  lemma RunToRecord(s: Settings, id: string, request: Payload) returns (states: seq<State>, steps: seq<Step>)
    requires ValidRequest(s, request)
    ensures IsRunTo(s, states, steps, JustRecorded(id, request))
  {
    hide IsRunTo, ValidRequest;
    states, steps := RunToCreation(s, id, request);
    states, steps := Extend(s, states, steps, JustSubmitted(id, request), InsertCommitted, JustRecorded(id, request));
  }

  lemma RunToWorker(s: Settings, id: string, request: Payload) returns (states: seq<State>, steps: seq<Step>)
    requires ValidRequest(s, request)
    ensures IsRunTo(s, states, steps, AboutToSave(id, request, Open))
  {
    hide IsRunTo, ValidRequest;
    states, steps := RunToRecord(s, id, request);
    var g3 := JustRecorded(id, request);
    var g4 := g3.(submission := Idle, worker := Scheduled(id, request));
    var g5 := g4.(pending := map[id := Waiting], worker := Sending(id, request, false));
    states, steps := Extend(s, states, steps, g3, SubmitResumes, g4);
    states, steps := Extend(s, states, steps, g4, WorkerStarts, g5);
    states, steps := Extend(s, states, steps, g5, TimesOut, AboutToSave(id, request, Open));
  }

  lemma StartsRun(s: Settings)
    ensures IsRunTo(s, [INITIAL], [], INITIAL)
  {
  }

  /** A shutdown that overtakes the worker's final write leaves a planning record that is nobody's active task. */
  lemma ShutdownAbandons(s: Settings, id: string, request: Payload) returns (states: seq<State>, steps: seq<Step>)
    requires ValidRequest(s, request)
    ensures IsRun(s, states, steps)
    ensures var g := states[|steps|]; g.up && g.active == None && PlanningIds(g.table) == {id}
  {
    hide ValidRequest;
    states, steps := RunToWorker(s, id, request);
    var g := AboutToSave(id, request, Open);
    var g1, g2 := AboutToSave(id, request, Requested), AboutToSave(id, request, Stopping);
    states, steps := Extend(s, states, steps, g, CloseRequested, g1);
    states, steps := Extend(s, states, steps, g1, CloseLocks, g2);
    states, steps := Extend(s, states, steps, g2, WorkerStops, After(s, g2, WorkerStops));
  }

  /** A second cancellation of a submission does the same. */
  lemma CancellationAbandons(s: Settings, id: string, request: Payload) returns (states: seq<State>, steps: seq<Step>)
    requires ValidRequest(s, request)
    ensures IsRun(s, states, steps)
    ensures var g := states[|steps|]; g.up && g.active == None && PlanningIds(g.table) == {id}
  {
    hide ValidRequest;
    states, steps := RunToRecord(s, id, request);
    var g := JustRecorded(id, request);
    var g1 := g.(submission := Creating(id, request, true, true), withdrawn := {id});
    states, steps := Extend(s, states, steps, g, CancelSubmit, g1);
    states, steps := Extend(s, states, steps, g1, CancelSubmit, After(s, g1, CancelSubmit));
  }

  /** A record nobody owns also appears when the INSERT of a submission cancelled twice commits after all. */
  lemma LateInsertAbandons(s: Settings, id: string, request: Payload) returns (states: seq<State>, steps: seq<Step>)
    requires ValidRequest(s, request)
    ensures IsRun(s, states, steps) && |steps| > 0
    ensures var f := states[|steps| - 1]; f.up && f.active == None && PlanningIds(f.table) == {}
    ensures var g := states[|steps|]; g.up && g.active == None && PlanningIds(g.table) == {id}
  {
    hide ValidRequest;
    states, steps := RunToCreation(s, id, request);
    var g2 := JustSubmitted(id, request);
    var g3 := g2.(submission := Creating(id, request, false, true), withdrawn := {id});
    var g4 := After(s, g3, CancelSubmit);
    states, steps := Extend(s, states, steps, g2, CancelSubmit, g3);
    states, steps := Extend(s, states, steps, g3, CancelSubmit, g4);
    states, steps := Extend(s, states, steps, g4, LateCommit(id), After(s, g4, LateCommit(id)));
  }
}

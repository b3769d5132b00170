/** The dispatch server's session registry: registration, heartbeats, removal, and the disconnect callback. */
module Registry {
  import opened ErrorCodes
  import opened Options
  import opened KinematicsAdapter

  const HEARTBEAT_OFFLINE_SEC := 10.0

  // ----- The history of the registry ---------------------------------------

  /** A module got an entry; its entry was removed; the motion service reported an emergency stop. */
  datatype Event = Joined(id: Module) | Left(id: Module) | Stopped

  /** The modules that have an entry after a history. */
  function Replay(log: seq<Event>): set<Module> {
    if log == [] then {}
    else
      var before, last := Replay(log[..|log| - 1]), log[|log| - 1];
      if last.Joined? then before + {last.id} else if last.Left? then before - {last.id} else before
  }

  /** A module joins only when it has no entry, and leaves only when it has one. */
  predicate Alternates(log: seq<Event>) {
    log != [] ==>
      var front, last := log[..|log| - 1], log[|log| - 1];
      Alternates(front) && (last.Stopped? || (last.Joined? <==> last.id !in Replay(front)))
  }

  /** The calls of the disconnect callback a history asks for: one for each departure and each emergency stop. */
  function Calls(log: seq<Event>): seq<Module> {
    if log == [] then []
    else
      Calls(log[..|log| - 1]) +
      match log[|log| - 1]
      case Joined(_) => []
      case Left(id) => [id]
      case Stopped => [Motion]
  }

  function Count<T(==)>(list: seq<T>, e: T): nat {
    if list == [] then 0 else Count(list[..|list| - 1], e) + (if list[|list| - 1] == e then 1 else 0)
  }

  lemma CountMore<T>(list: seq<T>, more: seq<T>, e: T)
    requires |more| <= 1
    ensures Count(list + more, e) == Count(list, e) + Count(more, e)
  {
    if more != [] {
      assert (list + more)[..|list|] == list && more[..0] == [];
    } else {
      assert list + more == list;
    }
  }

  /**
    Every entry that is gone was reported by one call of the callback, and no entry that is there: the other calls
    are emergency stops, reported as a departure of the motion service.
    */
  lemma {:induction false} EveryDepartureIsReportedOnce(log: seq<Event>, id: Module)
    requires Alternates(log)
    ensures Count(log, Joined(id)) + (if id == Motion then Count(log, Stopped) else 0)
            == Count(Calls(log), id) + (if id in Replay(log) then 1 else 0)
  {
    if log != [] {
      var front, last := log[..|log| - 1], log[|log| - 1];
      EveryDepartureIsReportedOnce(front, id);
      var call := match last case Joined(_) => [] case Left(m) => [m] case Stopped => [Motion];
      CountMore(Calls(front), call, id);
    }
  }

  /** A history that accounts for the modules with an entry and for the calls of the callback after the earlier ones. */
  ghost predicate Accounts(log: seq<Event>, modules: set<Module>, earlier: seq<Module>, calls: seq<Module>) {
    Alternates(log) && Replay(log) == modules && calls == earlier + Calls(log)
  }

  lemma Joins(log: seq<Event>, modules: set<Module>, earlier: seq<Module>, calls: seq<Module>, m: Module)
    requires Accounts(log, modules, earlier, calls) && m !in modules
    ensures Accounts(log + [Joined(m)], modules + {m}, earlier, calls)
  {
    assert (log + [Joined(m)])[..|log|] == log;
  }

  lemma Leaves(log: seq<Event>, modules: set<Module>, earlier: seq<Module>, calls: seq<Module>, m: Module)
    requires Accounts(log, modules, earlier, calls) && m in modules
    ensures Accounts(log + [Left(m)], modules - {m}, earlier, calls + [m])
  {
    assert (log + [Left(m)])[..|log|] == log;
  }

  lemma Stops(log: seq<Event>, modules: set<Module>, earlier: seq<Module>, calls: seq<Module>)
    requires Accounts(log, modules, earlier, calls)
    ensures Accounts(log + [Stopped], modules, earlier, calls + [Motion])
  {
    assert (log + [Stopped])[..|log|] == log;
  }

  /** Between the two histories, exactly these modules left, each once. */
  ghost predicate Departed(before: seq<Event>, after: seq<Event>, ms: set<Module>) {
    multiset(after) == multiset(before) + multiset(set m | m in ms :: Left(m))
  }

  lemma NobodyDeparted(log: seq<Event>)
    ensures Departed(log, log, {})
  {
  }

  lemma OneMoreDeparted(before: seq<Event>, after: seq<Event>, ms: set<Module>, m: Module)
    requires Departed(before, after, ms) && m !in ms
    ensures Departed(before, after + [Left(m)], ms + {m})
  {
    assert (set k | k in ms + {m} :: Left(k)) == (set k | k in ms :: Left(k)) + {Left(m)};
  }

  // ----- Sessions ----------------------------------------------------------

  class ClientSession {
    var moduleId: Option<Module>
    var lastHeartbeat: real
    var closing: bool

    constructor (now: real)
      ensures moduleId == None && lastHeartbeat == now && !closing
    {
      moduleId, lastHeartbeat, closing := None, now, false;
    }
  }

  /** A decoded line; module' is the identity a registration claims, if it is one of the four. */
  datatype Line = Line(kind: LineKind, source: Module, target: Module, module': Option<Module>,
                       code: int, data: Data)

  datatype LineKind = Register | Heartbeat | TaskStart | DetectionResult | StatusReport | FaultLine | OtherLine

  datatype Answer = NoAnswer | RegisterAck | HeartbeatAck | Refused(code: int) | Business

  /** The only module that may send a kind of business message. */
  function AllowedSource(kind: LineKind): Option<Module> {
    match kind
    case TaskStart => Some(Frontend)
    case DetectionResult => Some(Algorithm)
    case StatusReport => Some(Motion)
    case _ => None
  }

  function MessageOf(line: Line): Message {
    Message(line.source, if line.kind == StatusReport then MotionStatus
                         else if line.kind == FaultLine then FaultReport else OtherKind, line.code, line.data)
  }

  /** A business line of the motion service, as the adapter takes it: what it leaves for the waiting task it names. */
  lemma ReportIsDelivered(pending: Pending, line: Line, id: string)
    requires line.source == Motion && (line.kind == StatusReport || line.kind == FaultLine)
    requires id in pending && pending[id] == Waiting && line.code != EMERGENCY_STOP
    requires (line.data.Shaped? && line.data.plan.taskId == id) || (line.data.Unshaped? && line.data.taskId == Some(id))
    ensures Delivered(pending, MessageOf(line))
         == pending[id := if line.code != 0 then Broken(line.code)
                          else if line.kind == FaultLine then Broken(MOTION_EXEC_FAILED) else Resolved(line.data)]
  {
    ReplyIsFiled(pending, MessageOf(line), id);
  }

  /** No other line reaches a reply. */
  lemma OtherLinesReachNoReply(pending: Pending, line: Line)
    requires line.source != Motion || (line.kind != StatusReport && line.kind != FaultLine)
    ensures Delivered(pending, MessageOf(line)) == pending
  {
  }

  class TcpDispatchServer {
    var sessions: map<Module, ClientSession>
    const adapter: Adapter
    ghost var clients: set<ClientSession>
    ghost var log: seq<Event>
    ghost const earlier: seq<Module>

    /** Every entry is a client that carries the entry's identity, and the history accounts for entries and calls. */
    ghost predicate Valid()
      reads this, clients, adapter
    {
      && (forall m :: m in sessions ==> sessions[m] in clients && sessions[m].moduleId == Some(m))
      && Accounts(log, sessions.Keys, earlier, adapter.departures)
    }

    constructor (adapter: Adapter)
      ensures Valid() && this.adapter == adapter && sessions == map[] && clients == {} && log == []
    {
      this.adapter, earlier := adapter, adapter.departures;
      sessions, clients, log := map[], {}, [];
    }

    /** No client's identity changes once it is set. */
    twostate predicate IdentitiesKept()
      reads this, clients
    {
      && old(clients) <= clients
      && forall c :: c in old(clients) && old(c.moduleId).Some? ==> c.moduleId == old(c.moduleId)
    }

    /** An entry whose connection is not closing stays where it is. */
    twostate predicate LiveKept()
      reads this
    {
      forall m :: m in old(sessions) && !old(sessions[m].closing) ==> m in sessions && sessions[m] == old(sessions[m])
    }

    /** Every entry of another client stays where it is. */
    twostate predicate OthersKept(c: ClientSession)
      reads this
    {
      forall m :: m in old(sessions) && old(sessions)[m] != c ==> m in sessions && sessions[m] == old(sessions)[m]
    }

    function IsOnline(m: Module): bool
      reads this, if m in sessions then {sessions[m]} else {}
    {
      m in sessions && !sessions[m].closing
    }

    /** c holds the entry of its own identity. */
    predicate Owns(entries: map<Module, ClientSession>, c: ClientSession)
      reads c
    {
      c.moduleId.Some? && c.moduleId.value in entries && entries[c.moduleId.value] == c
    }

    method Accept(now: real) returns (c: ClientSession)
      requires Valid()
      modifies this`clients
      ensures Valid() && fresh(c) && clients == old(clients) + {c} && c.moduleId == None && !c.closing
    {
      c := new ClientSession(now);
      clients := clients + {c};
    }

    /** Removes the client's own entry, and only that; the callback runs exactly when an entry is removed. */
    method Unregister(c: ClientSession)
      requires Valid() && c in clients
      modifies this`sessions, this`log, adapter
      ensures Valid() && clients == old(clients)
      ensures sessions == if Owns(old(sessions), c) then old(sessions) - {c.moduleId.value} else old(sessions)
      ensures OthersKept(c) && forall m :: m in sessions ==> sessions[m] != c
      ensures log == old(log) + if Owns(old(sessions), c) then [Left(c.moduleId.value)] else []
      ensures adapter.pending == if Owns(old(sessions), c) && c.moduleId == Some(Motion)
                                 then AllBroken(old(adapter.pending)) else old(adapter.pending)
    {
      hide Accounts, AllBroken;
      if Owns(sessions, c) {
        var m := c.moduleId.value;
        Leaves(log, sessions.Keys, earlier, adapter.departures, m);
        sessions := sessions - {m};
        log := log + [Left(m)];
        adapter.OnDisconnect(m);
      }
    }

    /** What an accepted registration adds to the history: a closing predecessor leaves, a new entry joins. */
    function Entry(c: ClientSession, m: Module): seq<Event>
      reads this
    {
      if m !in sessions then [Joined(m)] else if sessions[m] != c then [Left(m), Joined(m)] else []
    }

    /** Gives the client the entry of m; a closing predecessor is removed first. */
    method Enter(c: ClientSession, m: Module, now: real)
      requires Valid() && c in clients && (c.moduleId == None || c.moduleId == Some(m))
      requires m in sessions && sessions[m] != c ==> sessions[m].closing
      modifies this`sessions, this`log, c`moduleId, c`lastHeartbeat, adapter
      ensures Valid() && clients == old(clients)
      ensures c.moduleId == Some(m) && c.lastHeartbeat == now && sessions == old(sessions)[m := c]
      ensures log == old(log) + old(Entry(c, m))
      ensures adapter.pending == if m == Motion && old(m in sessions && sessions[m] != c)
                                 then AllBroken(old(adapter.pending)) else old(adapter.pending)
    {
      hide Accounts, AllBroken;
      if m in sessions && sessions[m] != c {
        assert Owns(sessions, sessions[m]);
        Unregister(sessions[m]);
        assert sessions == old(sessions) - {m} && log == old(log) + [Left(m)];
      }
      ghost var modules := sessions.Keys + {m};
      if m !in sessions {
        Joins(log, sessions.Keys, earlier, adapter.departures, m);
        log := log + [Joined(m)];
      } else {
        assert modules == sessions.Keys;
      }
      c.moduleId := Some(m);
      c.lastHeartbeat := now;
      sessions := sessions[m := c];
      assert sessions.Keys == modules && sessions == old(sessions)[m := c];
    }

    /** Why a registration is refused, in the order the reasons are checked. */
    function RegisterRefusal(c: ClientSession, line: Line): Option<int>
      reads this, c, if line.module'.Some? && line.module'.value in sessions then {sessions[line.module'.value]} else {}
    {
      if line.module' == None || line.module'.value == Backend then Some(INVALID_PARAM)
      else
        var m := line.module'.value;
        if line.source != m || line.target != Backend then Some(INVALID_MESSAGE)
        else if c.moduleId.Some? && c.moduleId.value != m then Some(INVALID_PARAM)
        else if m in sessions && sessions[m] != c && !sessions[m].closing then Some(ROBOT_BUSY)
        else None
    }

    /** The line claims the entry of m, which another client still holds. */
    predicate Displaces(c: ClientSession, line: Line, m: Module)
      reads this
    {
      line.module' == Some(m) && m in sessions && sessions[m] != c
    }

    /**
      Why a registration is refused, case by case: a client may claim one of the three registrable modules as itself,
      to the backend, without changing its identity, and while no other live connection holds the entry.
      */
    lemma RefusalTable(c: ClientSession, line: Line)
      ensures var refusal := RegisterRefusal(c, line);
              var claims := line.module' in {Some(Frontend), Some(Algorithm), Some(Motion)};
              var addressed := line.module' == Some(line.source) && line.target == Backend;
              var changes := c.moduleId.Some? && c.moduleId != line.module';
              var taken := line.module'.Some? && line.module'.value in sessions
                           && sessions[line.module'.value] != c && !sessions[line.module'.value].closing;
              && (refusal == Some(INVALID_MESSAGE) <==> claims && !addressed)
              && (refusal == Some(INVALID_PARAM) <==> !claims || (addressed && changes))
              && (refusal == Some(ROBOT_BUSY) <==> claims && addressed && !changes && taken)
              && (refusal == None <==> claims && addressed && !changes && !taken)
    {
    }

    /**
      A refused registration changes nothing; an accepted one gives the client the entry it claims. Replies are
      broken exactly when that entry is the motion service's and a closing predecessor still holds it.
      */
    method HandleRegister(c: ClientSession, line: Line, now: real) returns (answer: Answer)
      requires Valid() && c in clients
      modifies this`sessions, this`log, c`moduleId, c`lastHeartbeat, adapter
      ensures Valid() && clients == old(clients) && IdentitiesKept() && LiveKept()
      ensures old(RegisterRefusal(c, line)).Some? ==>
                && answer == Refused(old(RegisterRefusal(c, line)).value)
                && sessions == old(sessions) && log == old(log) && unchanged(c) && unchanged(adapter)
      ensures old(RegisterRefusal(c, line)) == None ==>
                && answer == RegisterAck && line.module'.Some?
                && c.moduleId == line.module' && c.lastHeartbeat == now
                && sessions == old(sessions)[line.module'.value := c]
                && log == old(log) + old(Entry(c, line.module'.value))
                && adapter.pending == if old(Displaces(c, line, Motion)) then AllBroken(old(adapter.pending))
                                      else old(adapter.pending)
    {
      hide Accounts;
      if line.module' == None || line.module'.value == Backend {
        return Refused(INVALID_PARAM);
      }
      var m := line.module'.value;
      if line.source != m || line.target != Backend {
        return Refused(INVALID_MESSAGE);
      }
      if c.moduleId.Some? && c.moduleId.value != m {
        return Refused(INVALID_PARAM);
      }
      if m in sessions && sessions[m] != c && !sessions[m].closing {
        return Refused(ROBOT_BUSY);
      }
      Enter(c, m, now);
      return RegisterAck;
    }

    // ----- Lines of registered clients -------------------------------------

    /** The answer to a line that is no registration. */
    function RouteAnswer(c: ClientSession, line: Line): Answer
      reads c
    {
      if c.moduleId == None then Refused(NOT_REGISTERED)
      else if line.source != c.moduleId.value then Refused(INVALID_MESSAGE)
      else if line.kind == Heartbeat && line.target == Backend then HeartbeatAck
      else if line.kind != FaultLine && AllowedSource(line.kind) != c.moduleId then Refused(INVALID_PARAM)
      else if line.target != Backend then Refused(INVALID_PARAM)
      else Business
    }

    /** Business is what a registered client sends as itself to the backend, if its module may send that kind. */
    predicate IsBusiness(id: Option<Module>, line: Line) {
      && id == Some(line.source) && line.target == Backend
      && (line.kind == FaultLine || (line.kind == TaskStart && line.source == Frontend)
          || (line.kind == DetectionResult && line.source == Algorithm)
          || (line.kind == StatusReport && line.source == Motion))
    }

    /**
      Routes one line. Replies are resolved only by a client registered as the motion service, with its status and
      fault reports to the backend; the one other line with an effect on them is a registration as the motion
      service that takes over a closing predecessor's entry, which breaks those still waiting.
      */
    method HandleLine(c: ClientSession, line: Line, now: real) returns (answer: Answer)
      requires Valid() && c in clients
      modifies this`sessions, this`log, c`moduleId, c`lastHeartbeat, adapter
      ensures Valid() && clients == old(clients) && IdentitiesKept() && LiveKept()
      ensures line.kind == Register && old(RegisterRefusal(c, line)).Some? ==>
                && answer == Refused(old(RegisterRefusal(c, line)).value)
                && sessions == old(sessions) && log == old(log) && unchanged(c) && unchanged(adapter)
      ensures line.kind == Register && old(RegisterRefusal(c, line)) == None ==>
                && answer == RegisterAck && line.module'.Some?
                && sessions == old(sessions)[line.module'.value := c]
                && log == old(log) + old(Entry(c, line.module'.value))
                && adapter.pending == if old(Displaces(c, line, Motion)) then AllBroken(old(adapter.pending))
                                      else old(adapter.pending)
      ensures line.kind != Register ==>
                && answer == old(RouteAnswer(c, line)) && sessions == old(sessions)
                && log == old(log) + (if answer == Business && IsEmergencyStop(MessageOf(line)) then [Stopped] else [])
                && c.lastHeartbeat == (if answer == HeartbeatAck then now else old(c.lastHeartbeat))
                && adapter.pending == (if answer == Business then Delivered(old(adapter.pending), MessageOf(line))
                                       else old(adapter.pending))
                && (old(c.moduleId) != Some(Motion) ==> adapter.pending == old(adapter.pending))
      ensures line.kind != Register ==>
                var id := old(c.moduleId);
                var beats := id == Some(line.source) && line.kind == Heartbeat && line.target == Backend;
                && (answer == Business <==> IsBusiness(id, line))
                && (answer == HeartbeatAck <==> beats)
                && (answer == Refused(NOT_REGISTERED) <==> id == None)
                && (answer == Refused(INVALID_MESSAGE) <==> id.Some? && id != Some(line.source))
                && (answer == Refused(INVALID_PARAM) <==> id == Some(line.source) && !IsBusiness(id, line) && !beats)
      ensures adapter.pending != old(adapter.pending) ==>
                if line.kind == Register then old(Displaces(c, line, Motion)) else old(c.moduleId) == Some(Motion)
    {
      hide Accounts, AllBroken, RegisterRefusal, Entry;
      if line.kind == Register {
        answer := HandleRegister(c, line, now);
        return;
      }
      if c.moduleId == None {
        return Refused(NOT_REGISTERED);
      }
      if line.source != c.moduleId.value {
        return Refused(INVALID_MESSAGE);
      }
      if line.kind == Heartbeat && line.target == Backend {
        c.lastHeartbeat := now;
        return HeartbeatAck;
      }
      if line.kind != FaultLine && AllowedSource(line.kind) != c.moduleId {
        return Refused(INVALID_PARAM);
      }
      if line.target != Backend {
        return Refused(INVALID_PARAM);
      }
      if IsEmergencyStop(MessageOf(line)) {
        Stops(log, sessions.Keys, earlier, adapter.departures);
        log := log + [Stopped];
      }
      var _ := adapter.OnMessage(MessageOf(line));
      assert IsEmergencyStop(MessageOf(line)) || adapter.departures == old(adapter.departures);
      return Business;
    }

    // ----- Connections that end --------------------------------------------

    /** Closes a connection and removes its entry: after a failed send, a missed heartbeat, or the end of its stream. */
    method Drop(c: ClientSession)
      requires Valid() && c in clients
      modifies this`sessions, this`log, c`closing, adapter
      ensures Valid() && clients == old(clients) && c.closing && IdentitiesKept()
      ensures OthersKept(c) && forall m :: m in sessions ==> sessions[m] != c
      ensures sessions == if Owns(old(sessions), c) then old(sessions) - {c.moduleId.value} else old(sessions)
      ensures log == old(log) + if Owns(old(sessions), c) then [Left(c.moduleId.value)] else []
      ensures adapter.pending == if Owns(old(sessions), c) && c.moduleId == Some(Motion)
                                 then AllBroken(old(adapter.pending)) else old(adapter.pending)
    {
      hide Accounts, AllBroken;
      c.closing := true;
      Unregister(c);
    }

    predicate Overdue(c: ClientSession, now: real)
      reads c
    {
      now - c.lastHeartbeat > HEARTBEAT_OFFLINE_SEC
    }

    /** The modules whose last heartbeat is too old. */
    function Silent(now: real): set<Module>
      reads this, sessions.Values
    {
      set m | m in sessions && Overdue(sessions[m], now)
    }

    /** Silent is who has sent no heartbeat for more than ten seconds. */
    lemma IsSilent(now: real)
      ensures forall m :: m in Silent(now) <==> m in sessions && now > sessions[m].lastHeartbeat + 10.0
    {
    }

    /**
      One round of the heartbeat patrol: exactly the entries that are silent are closed and removed, each departure
      enters the history once, and the waiting replies are broken when the motion service is among them.
      */
    method Patrol(now: real)
      requires Valid()
      modifies this`sessions, this`log, set c | c in clients :: c`closing, adapter
      ensures Valid() && clients == old(clients) && IdentitiesKept()
      ensures sessions == old(sessions) - old(Silent(now))
      ensures forall m :: m in old(Silent(now)) ==> old(sessions)[m].closing
      ensures forall m :: m in sessions ==> sessions[m].closing == old(sessions[m].closing)
      ensures Departed(old(log), log, old(Silent(now)))
      ensures adapter.pending == if Motion in old(Silent(now)) then AllBroken(old(adapter.pending))
                                 else old(adapter.pending)
    {
      hide Accounts, AllBroken, Departed, Silent;
      var todo := sessions.Keys;
      ghost var silent, gone := Silent(now), {};
      IsSilent(now);
      NobodyDeparted(log);
      while todo != {}
        invariant Valid() && clients == old(clients) && IdentitiesKept()
        invariant todo <= old(sessions).Keys && gone == silent - todo
        invariant sessions == old(sessions) - gone
        invariant forall m :: m in old(sessions) ==>
                    old(sessions)[m].closing == (old(sessions[m].closing) || m in gone)
        invariant Departed(old(log), log, gone)
        invariant adapter.pending == if Motion in gone then AllBroken(old(adapter.pending)) else old(adapter.pending)
        decreases todo
      {
        var m :| m in todo;
        if m in sessions && Overdue(sessions[m], now) {
          OneMoreDeparted(old(log), log, gone, m);
          Drop(sessions[m]);
          gone := gone + {m};
        }
        todo := todo - {m};
      }
      assert gone == silent;
    }
  }

  /**
    The adapter heard of each departure exactly once: the entries a module ever got are the ones it has and the ones
    reported gone, once the emergency stops are set aside.
    */
  lemma AdapterHearsEveryDeparture(server: TcpDispatchServer, id: Module)
    requires server.Valid()
    ensures |server.earlier| <= |server.adapter.departures|
    ensures var calls := server.adapter.departures[|server.earlier|..];
            Count(server.log, Joined(id)) + (if id == Motion then Count(server.log, Stopped) else 0)
            == Count(calls, id) + (if id in server.sessions then 1 else 0)
  {
    EveryDepartureIsReportedOnce(server.log, id);
    assert server.adapter.departures[|server.earlier|..] == Calls(server.log);
  }
}

/**
  The two locks of the C++ client. Any number of threads send, close and connect; a step is one atomic action of
  one thread. Descriptor numbers are the kernel's: a closed number may be handed out again for another connection.
  */
module SendLock {
  import opened Options
  import opened BitStream

  type Bytes = seq<byte>

  /** Where a thread is. conn is the connection the descriptor stood for when the thread took it over. */
  datatype Pc =
    | Resting
    | WantSend(payload: Bytes)
    | HoldSend(payload: Bytes)
    | InLoop(payload: Bytes, fd: nat, conn: nat, offset: nat)
    | WantClose
    | Closing
    | Exchanged(fd: nat, conn: nat)
    | HoldBoth(fd: nat, conn: nat)
    | WantConnect
    | Connecting
    | Opened(fd: nat, conn: nat)

  /**
    life and send are the owners of the two mutexes, socket the stored descriptor, kernel the open descriptors with
    their connections. wires, frames, failed and closed are history: bytes per connection, whole frames sent on it,
    connections on which a send failed, and the native closes in order.
    */
  datatype State = State(threads: seq<Pc>, life: Option<nat>, send: Option<nat>, socket: Option<nat>,
                         kernel: map<nat, nat>, next: nat, wires: map<nat, Bytes>, frames: map<nat, seq<Bytes>>,
                         failed: set<nat>, closed: seq<nat>)

  function Initial(n: nat): State {
    State(seq(n, _ => Resting), None, None, None, map[], 0, map[], map[], {}, [])
  }

  datatype Action =
    | StartSend(payload: Bytes)
    | TakeSend
    | LoadSocket
    | SendSome(count: nat)
    | SendError
    | SendDone
    | StartClose
    | StartConnect
    | TakeLife
    | Exchange
    | TakeSendToClose
    | NativeClose
    | AlreadyOpen
    | OpenFails
    | OpenNative(fd: nat)
    | ConnectFails
    | Publish

  predicate IsStart(a: Action) {
    a.StartSend? || a.StartClose? || a.StartConnect?
  }

  predicate Enabled(g: State, i: nat, a: Action) {
    i < |g.threads| && EnabledAt(g, g.threads[i], a)
  }

  predicate EnabledAt(g: State, pc: Pc, a: Action) {
    match a
    case StartSend(payload) => pc == Resting && payload != []
    case TakeSend => pc.WantSend? && g.send == None
    case LoadSocket => pc.HoldSend? && (g.socket.Some? ==> g.socket.value in g.kernel)
    case SendSome(count) => pc.InLoop? && 0 < count && pc.offset + count <= |pc.payload| && pc.fd in g.kernel
    case SendError => pc.InLoop? && pc.offset < |pc.payload|
    case SendDone => pc.InLoop? && pc.offset == |pc.payload|
    case StartClose => pc == Resting
    case StartConnect => pc == Resting
    case TakeLife => (pc == WantClose || pc == WantConnect) && g.life == None
    case Exchange => pc == Closing && (g.socket.Some? ==> g.socket.value in g.kernel)
    case TakeSendToClose => pc.Exchanged? && g.send == None
    case NativeClose => pc.HoldBoth?
    case AlreadyOpen => pc == Connecting && g.socket.Some?
    case OpenFails => pc == Connecting && g.socket == None
    case OpenNative(fd) => pc == Connecting && g.socket == None && fd !in g.kernel
    case ConnectFails => pc.Opened?
    case Publish => pc.Opened?
  }

  function Logged<T>(m: map<nat, seq<T>>, k: nat): seq<T> {
    if k in m then m[k] else []
  }

  function Log<T>(m: map<nat, seq<T>>, k: nat, more: seq<T>): map<nat, seq<T>> {
    m[k := Logged(m, k) + more]
  }

  /** The native call writes to whatever connection the descriptor number stands for now. */
  function After(g: State, i: nat, a: Action): State
    requires Enabled(g, i, a)
  {
    var pc := g.threads[i];
    match a
    case StartSend(payload) => Move(g, i, WantSend(payload))
    case TakeSend => Move(g, i, HoldSend(pc.payload)).(send := Some(i))
    case LoadSocket =>
      if g.socket == None then Move(g, i, Resting).(send := None)
      else Move(g, i, InLoop(pc.payload, g.socket.value, g.kernel[g.socket.value], 0))
    case SendSome(count) =>
      Move(g, i, InLoop(pc.payload, pc.fd, pc.conn, pc.offset + count))
        .(wires := Log(g.wires, g.kernel[pc.fd], pc.payload[pc.offset..pc.offset + count]))
    case SendError => Move(g, i, Resting).(send := None, failed := g.failed + {pc.conn})
    case SendDone => Move(g, i, Resting).(send := None, frames := Log(g.frames, pc.conn, [pc.payload]))
    case StartClose => Move(g, i, WantClose)
    case StartConnect => Move(g, i, WantConnect)
    case TakeLife => Move(g, i, if pc == WantClose then Closing else Connecting).(life := Some(i))
    case Exchange =>
      if g.socket == None then Move(g, i, Resting).(life := None)
      else Move(g, i, Exchanged(g.socket.value, g.kernel[g.socket.value])).(socket := None)
    case TakeSendToClose => Move(g, i, HoldBoth(pc.fd, pc.conn)).(send := Some(i))
    case NativeClose => Shut(Move(g, i, Resting), pc.fd, pc.conn).(send := None)
    case AlreadyOpen => Move(g, i, Resting).(life := None)
    case OpenFails => Move(g, i, Resting).(life := None)
    case OpenNative(fd) => Move(g, i, Opened(fd, g.next)).(kernel := g.kernel[fd := g.next], next := g.next + 1)
    case ConnectFails => Shut(Move(g, i, Resting), pc.fd, pc.conn)
    case Publish => Move(g, i, Resting).(life := None, socket := Some(pc.fd))
  }

  function Move(g: State, i: nat, pc: Pc): State
    requires i < |g.threads|
  {
    g.(threads := g.threads[i := pc])
  }

  function Shut(g: State, fd: nat, conn: nat): State {
    g.(kernel := g.kernel - {fd}, closed := g.closed + [conn], life := None)
  }

  // ----- The invariant -----------------------------------------------------

  predicate OwnsSend(pc: Pc) {
    pc.HoldSend? || pc.InLoop? || pc.HoldBoth?
  }

  predicate OwnsLife(pc: Pc) {
    pc == Closing || pc.Exchanged? || pc.HoldBoth? || pc == Connecting || pc.Opened?
  }

  /** The lock fields say exactly which thread holds which lock. */
  predicate LocksFit(threads: seq<Pc>, life: Option<nat>, send: Option<nat>) {
    && (forall i :: 0 <= i < |threads| ==> (OwnsSend(threads[i]) <==> send == Some(i)))
    && (forall i :: 0 <= i < |threads| ==> (OwnsLife(threads[i]) <==> life == Some(i)))
    && (life.Some? ==> life.value < |threads|) && (send.Some? ==> send.value < |threads|)
  }

  /** The descriptor the holder of the lifecycle lock is responsible for. */
  function Held(threads: seq<Pc>, life: Option<nat>): Option<(nat, nat)> {
    if life == None || life.value >= |threads| then None
    else
      match threads[life.value]
      case Exchanged(fd, conn) => Some((fd, conn))
      case HoldBoth(fd, conn) => Some((fd, conn))
      case Opened(fd, conn) => Some((fd, conn))
      case _ => None
  }

  /** At most one descriptor is open: the stored one, or the one in the hands of the lifecycle lock's holder. */
  predicate KernelFits(socket: Option<nat>, held: Option<(nat, nat)>, kernel: map<nat, nat>) {
    && (socket.Some? ==> held == None && kernel.Keys == {socket.value})
    && (held.Some? ==> kernel == map[held.value.0 := held.value.1])
    && (socket == None && held == None ==> kernel == map[])
  }

  predicate ConnsFit(kernel: map<nat, nat>, next: nat, closed: seq<nat>) {
    && (forall fd :: fd in kernel ==> kernel[fd] < next && kernel[fd] !in closed)
    && (forall k :: 0 <= k < |closed| ==> closed[k] < next)
    && (forall j, k :: 0 <= j < k < |closed| ==> closed[j] != closed[k])
  }

  /** A thread in its send loop still has the open descriptor it loaded, standing for the same connection. */
  predicate SenderFits(pc: Pc, kernel: map<nat, nat>) {
    pc.InLoop? ==> pc.offset <= |pc.payload| && pc.fd in kernel && kernel[pc.fd] == pc.conn
  }

  predicate SendersFit(threads: seq<Pc>, kernel: map<nat, nat>) {
    forall i :: 0 <= i < |threads| ==> SenderFits(threads[i], kernel)
  }

  function Flat(frames: seq<Bytes>): Bytes {
    if frames == [] then [] else Flat(frames[..|frames| - 1]) + frames[|frames| - 1]
  }

  /** The part of the current frame that is already out. */
  function Partial(threads: seq<Pc>, send: Option<nat>, conn: nat): Bytes {
    if send.Some? && send.value < |threads| && threads[send.value].InLoop? && threads[send.value].conn == conn
       && threads[send.value].offset <= |threads[send.value].payload|
    then threads[send.value].payload[..threads[send.value].offset]
    else []
  }

  /** On a connection without a failed send the wire is whole frames, then the part of the current one. */
  predicate WireFits(g: State, conn: nat) {
    conn !in g.failed ==> Logged(g.wires, conn) == Flat(Logged(g.frames, conn)) + Partial(g.threads, g.send, conn)
  }

  ghost predicate WiresFit(g: State) {
    forall conn :: WireFits(g, conn)
  }

  /** Connections that do not exist yet have no history. */
  ghost predicate FutureIsBlank(next: nat, wires: map<nat, Bytes>, frames: map<nat, seq<Bytes>>, failed: set<nat>) {
    forall conn :: conn >= next ==> conn !in wires && conn !in frames && conn !in failed
  }

  /** While a connection is being set up nobody is sending. */
  predicate SetupIsQuiet(threads: seq<Pc>, life: Option<nat>) {
    life.Some? && life.value < |threads| && threads[life.value].Opened? ==>
      forall i :: 0 <= i < |threads| ==> !threads[i].InLoop?
  }

  ghost predicate Inv(g: State) {
    && LocksFit(g.threads, g.life, g.send)
    && KernelFits(g.socket, Held(g.threads, g.life), g.kernel)
    && ConnsFit(g.kernel, g.next, g.closed)
    && SendersFit(g.threads, g.kernel) && SetupIsQuiet(g.threads, g.life)
    && WiresFit(g) && FutureIsBlank(g.next, g.wires, g.frames, g.failed)
  }

  // ----- Every step keeps it -----------------------------------------------

  lemma InitialFits(n: nat)
    ensures Inv(Initial(n))
  {
  }

  /** A step that sends nothing leaves the wires as they should be, if it leaves the part of the current frame. */
  lemma SameWires(g: State, h: State)
    requires WiresFit(g) && h.wires == g.wires && h.frames == g.frames && g.failed <= h.failed
    requires forall conn :: conn !in h.failed ==> Partial(h.threads, h.send, conn) == Partial(g.threads, g.send, conn)
    ensures WiresFit(h)
  {
    hide Partial, Flat, Logged;
    forall conn ensures WireFits(h, conn) {
      assert WireFits(g, conn);
    }
  }

  lemma StartKeeps(g: State, i: nat, a: Action)
    requires Inv(g) && Enabled(g, i, a) && IsStart(a)
    ensures Inv(After(g, i, a))
  {
    hide Inv;
    QueueingKeeps(g, i, match a case StartSend(payload) => WantSend(payload)
                                case StartClose => WantClose
                                case _ => WantConnect);
  }

  lemma QueueingKeeps(g: State, i: nat, pc: Pc)
    requires Inv(g) && i < |g.threads| && g.threads[i] == Resting
    requires pc.WantSend? || pc == WantClose || pc == WantConnect
    ensures Inv(Move(g, i, pc))
  {
    hide ConnsFit, Flat, FutureIsBlank, WiresFit;
    SameWires(g, Move(g, i, pc));
  }

  lemma NothingToConnectKeeps(g: State, i: nat, a: Action)
    requires Inv(g) && Enabled(g, i, a) && (a.AlreadyOpen? || a.OpenFails?)
    ensures Inv(After(g, i, a))
  {
    hide ConnsFit, Flat, FutureIsBlank, WiresFit;
    SameWires(g, After(g, i, a));
  }

  lemma TakeSendKeeps(g: State, i: nat)
    requires Inv(g) && Enabled(g, i, TakeSend)
    ensures Inv(After(g, i, TakeSend))
  {
    hide ConnsFit, Flat, FutureIsBlank, WiresFit;
    SameWires(g, After(g, i, TakeSend));
  }

  lemma TakeLifeKeeps(g: State, i: nat)
    requires Inv(g) && Enabled(g, i, TakeLife)
    ensures Inv(After(g, i, TakeLife))
  {
    hide ConnsFit, Flat, FutureIsBlank, WiresFit;
    SameWires(g, After(g, i, TakeLife));
  }

  lemma LoadKeeps(g: State, i: nat)
    requires Inv(g) && Enabled(g, i, LoadSocket)
    ensures Inv(After(g, i, LoadSocket))
  {
    hide ConnsFit, Flat, FutureIsBlank, WiresFit;
    SameWires(g, After(g, i, LoadSocket));
  }

  lemma SendSomeKeeps(g: State, i: nat, count: nat)
    requires Inv(g) && Enabled(g, i, SendSome(count))
    ensures Inv(After(g, i, SendSome(count)))
  {
    hide ConnsFit, Flat, KernelFits, WiresFit, WireFits;
    var pc := g.threads[i];
    var h := After(g, i, SendSome(count));
    assert SenderFits(pc, g.kernel);
    ConnIsKnown(g.kernel, g.next, g.closed, pc.fd);
    forall conn ensures WireFits(h, conn) {
      WireAt(g, conn);
      MoreOnWire(g, i, count, conn);
    }
    AllWires(h);
  }

  lemma WireAt(g: State, conn: nat)
    requires WiresFit(g)
    ensures WireFits(g, conn)
  {
  }

  lemma AllWires(g: State)
    requires forall conn :: WireFits(g, conn)
    ensures WiresFit(g)
  {
  }

  lemma MoreOnWire(g: State, i: nat, count: nat, conn: nat)
    requires Enabled(g, i, SendSome(count)) && WireFits(g, conn)
    requires g.send == Some(i) && g.kernel[g.threads[i].fd] == g.threads[i].conn
    ensures WireFits(After(g, i, SendSome(count)), conn)
  {
    hide Flat, Log, Logged;
    var pc := g.threads[i];
    var before, chunk := pc.payload[..pc.offset], pc.payload[pc.offset..pc.offset + count];
    assert pc.payload[..pc.offset + count] == before + chunk;
    LogAt(g.wires, pc.conn, chunk, conn);
    if conn == pc.conn {
      assert Flat(Logged(g.frames, conn)) + before + chunk == Flat(Logged(g.frames, conn)) + (before + chunk);
    }
  }

  lemma LogAt<T>(m: map<nat, seq<T>>, k: nat, more: seq<T>, at: nat)
    ensures Logged(Log(m, k, more), at) == if at == k then Logged(m, k) + more else Logged(m, at)
  {
  }

  lemma SendErrorKeeps(g: State, i: nat)
    requires Inv(g) && Enabled(g, i, SendError)
    ensures Inv(After(g, i, SendError))
  {
    hide ConnsFit, Flat, KernelFits, WiresFit;
    SameWires(g, After(g, i, SendError));
    assert SenderFits(g.threads[i], g.kernel);
    assert g.threads[i].conn < g.next by {
      ConnIsKnown(g.kernel, g.next, g.closed, g.threads[i].fd);
    }
  }

  lemma ConnIsKnown(kernel: map<nat, nat>, next: nat, closed: seq<nat>, fd: nat)
    requires ConnsFit(kernel, next, closed) && fd in kernel
    ensures kernel[fd] < next && kernel[fd] !in closed
  {
  }

  lemma SendDoneKeeps(g: State, i: nat)
    requires Inv(g) && Enabled(g, i, SendDone)
    ensures Inv(After(g, i, SendDone))
  {
    hide ConnsFit, Flat, KernelFits, WiresFit, WireFits;
    var h := After(g, i, SendDone);
    assert SenderFits(g.threads[i], g.kernel);
    ConnIsKnown(g.kernel, g.next, g.closed, g.threads[i].fd);
    forall conn ensures WireFits(h, conn) {
      WireAt(g, conn);
      FrameOnWire(g, i, conn);
    }
    AllWires(h);
  }

  lemma FrameOnWire(g: State, i: nat, conn: nat)
    requires Enabled(g, i, SendDone) && WireFits(g, conn) && g.send == Some(i)
    ensures WireFits(After(g, i, SendDone), conn)
  {
    var pc := g.threads[i];
    assert pc.payload[..pc.offset] == pc.payload;
    var frames := Logged(g.frames, conn);
    assert (frames + [pc.payload])[..|frames|] == frames;
  }

  lemma ExchangeKeeps(g: State, i: nat)
    requires Inv(g) && Enabled(g, i, Exchange)
    ensures Inv(After(g, i, Exchange))
  {
    hide ConnsFit, Flat, FutureIsBlank, WiresFit;
    SameWires(g, After(g, i, Exchange));
  }

  lemma TakeSendToCloseKeeps(g: State, i: nat)
    requires Inv(g) && Enabled(g, i, TakeSendToClose)
    ensures Inv(After(g, i, TakeSendToClose))
  {
    hide ConnsFit, Flat, FutureIsBlank, WiresFit;
    SameWires(g, After(g, i, TakeSendToClose));
  }

  /** Holding both locks, no sender is in its loop, so nobody loses the descriptor that is closed. */
  lemma NativeCloseKeeps(g: State, i: nat)
    requires Inv(g) && Enabled(g, i, NativeClose)
    ensures Inv(After(g, i, NativeClose))
  {
    hide Flat, FutureIsBlank, WiresFit;
    SameWires(g, After(g, i, NativeClose));
  }

  lemma OpenKeeps(g: State, i: nat, fd: nat)
    requires Inv(g) && Enabled(g, i, OpenNative(fd))
    ensures Inv(After(g, i, OpenNative(fd)))
  {
    hide Flat, WiresFit;
    SameWires(g, After(g, i, OpenNative(fd)));
    forall k | 0 <= k < |g.threads|
      ensures !g.threads[k].InLoop?
    {
      assert SenderFits(g.threads[k], g.kernel);
    }
  }

  lemma ConnectFailsKeeps(g: State, i: nat)
    requires Inv(g) && Enabled(g, i, ConnectFails)
    ensures Inv(After(g, i, ConnectFails))
  {
    hide Flat, FutureIsBlank, WiresFit;
    SameWires(g, After(g, i, ConnectFails));
  }

  lemma PublishKeeps(g: State, i: nat)
    requires Inv(g) && Enabled(g, i, Publish)
    ensures Inv(After(g, i, Publish))
  {
    hide ConnsFit, Flat, FutureIsBlank, WiresFit;
    SameWires(g, After(g, i, Publish));
  }

  lemma StepKeeps(g: State, i: nat, a: Action)
    requires Inv(g) && Enabled(g, i, a)
    ensures Inv(After(g, i, a))
  {
    hide Inv, After;
    match a
    case StartSend(_) => StartKeeps(g, i, a);
    case StartClose => StartKeeps(g, i, a);
    case StartConnect => StartKeeps(g, i, a);
    case TakeSend => TakeSendKeeps(g, i);
    case LoadSocket => LoadKeeps(g, i);
    case SendSome(count) => SendSomeKeeps(g, i, count);
    case SendError => SendErrorKeeps(g, i);
    case SendDone => SendDoneKeeps(g, i);
    case TakeLife => TakeLifeKeeps(g, i);
    case Exchange => ExchangeKeeps(g, i);
    case TakeSendToClose => TakeSendToCloseKeeps(g, i);
    case NativeClose => NativeCloseKeeps(g, i);
    case AlreadyOpen => NothingToConnectKeeps(g, i, a);
    case OpenFails => NothingToConnectKeeps(g, i, a);
    case OpenNative(fd) => OpenKeeps(g, i, fd);
    case ConnectFails => ConnectFailsKeeps(g, i);
    case Publish => PublishKeeps(g, i);
  }

  // ----- Runs --------------------------------------------------------------

  predicate Follows(g: State, i: nat, a: Action, h: State) {
    Enabled(g, i, a) && h == After(g, i, a)
  }

  /** A run of n threads: who moves, and how. */
  ghost predicate IsRun(n: nat, states: seq<State>, moves: seq<(nat, Action)>) {
    && |states| == |moves| + 1 && states[0] == Initial(n)
    && forall k :: 0 <= k < |moves| ==> Follows(states[k], moves[k].0, moves[k].1, states[k + 1])
  }

  lemma {:induction false} RunKeeps(n: nat, states: seq<State>, moves: seq<(nat, Action)>, k: nat)
    requires IsRun(n, states, moves) && k < |states|
    ensures Inv(states[k])
  {
    hide Inv, After, Enabled;
    if k == 0 {
      InitialFits(n);
    } else {
      RunKeeps(n, states, moves, k - 1);
      assert Follows(states[k - 1], moves[k - 1].0, moves[k - 1].1, states[k]);
      StepKeeps(states[k - 1], moves[k - 1].0, moves[k - 1].1);
    }
  }

  /**
    No thread ever sends on a closed or reused descriptor: it is open and stands for the connection it was loaded
    for.
    */
  lemma NoSendOnClosedDescriptor(n: nat, states: seq<State>, moves: seq<(nat, Action)>, k: nat, i: nat)
    requires IsRun(n, states, moves) && k < |states| && i < |states[k].threads| && states[k].threads[i].InLoop?
    ensures var g, pc := states[k], states[k].threads[i];
            pc.fd in g.kernel && g.kernel[pc.fd] == pc.conn && pc.conn !in g.closed
  {
    hide IsRun, WiresFit, FutureIsBlank, LocksFit, KernelFits, SetupIsQuiet;
    RunKeeps(n, states, moves, k);
    assert SenderFits(states[k].threads[i], states[k].kernel);
    ConnIsKnown(states[k].kernel, states[k].next, states[k].closed, states[k].threads[i].fd);
  }

  /** Every native close closes an open descriptor, for the first time, while nobody is in a send loop. */
  lemma NativeCloseIsSafe(n: nat, states: seq<State>, moves: seq<(nat, Action)>, k: nat, i: nat)
    requires IsRun(n, states, moves) && k < |moves| && i < |states[k].threads|
    requires moves[k] == (i, NativeClose) || moves[k] == (i, ConnectFails)
    ensures var g, pc := states[k], states[k].threads[i];
            && (pc.HoldBoth? || pc.Opened?)
            && pc.fd in g.kernel && g.kernel[pc.fd] == pc.conn && pc.conn !in g.closed
            && (forall j :: 0 <= j < |g.threads| ==> !g.threads[j].InLoop?)
            && states[k + 1].closed == g.closed + [pc.conn] && states[k + 1].kernel == map[]
  {
    hide WiresFit, FutureIsBlank, Follows;
    RunKeeps(n, states, moves, k);
    MoveAt(n, states, moves, k);
    ClosingMove(states[k], i, moves[k].1, states[k + 1]);
  }

  lemma ClosingMove(g: State, i: nat, a: Action, h: State)
    requires Inv(g) && Follows(g, i, a, h) && (a.NativeClose? || a.ConnectFails?)
    ensures var pc := g.threads[i];
            && (pc.HoldBoth? || pc.Opened?)
            && pc.fd in g.kernel && g.kernel[pc.fd] == pc.conn && pc.conn !in g.closed
            && (forall j :: 0 <= j < |g.threads| ==> !g.threads[j].InLoop?)
            && h.closed == g.closed + [pc.conn] && h.kernel == map[]
  {
    hide WiresFit, FutureIsBlank;
  }

  /** No connection is ever closed twice. */
  lemma EachConnectionClosesOnce(n: nat, states: seq<State>, moves: seq<(nat, Action)>, k: nat)
    requires IsRun(n, states, moves) && k < |states|
    ensures forall i, j :: 0 <= i < j < |states[k].closed| ==> states[k].closed[i] != states[k].closed[j]
  {
    hide IsRun, WiresFit, FutureIsBlank, SetupIsQuiet, LocksFit, KernelFits, SendersFit;
    RunKeeps(n, states, moves, k);
  }

  lemma MoveAt(n: nat, states: seq<State>, moves: seq<(nat, Action)>, k: nat)
    requires IsRun(n, states, moves) && k < |moves|
    ensures Follows(states[k], moves[k].0, moves[k].1, states[k + 1])
  {
    hide Follows;
  }

  /** If no send on a connection failed, its wire is a concatenation of whole frames and the part of the current one. */
  lemma WireIsWholeFrames(n: nat, states: seq<State>, moves: seq<(nat, Action)>, k: nat, conn: nat)
    requires IsRun(n, states, moves) && k < |states| && conn !in states[k].failed
    ensures var g := states[k];
            Logged(g.wires, conn) == Flat(Logged(g.frames, conn)) + Partial(g.threads, g.send, conn)
  {
    hide IsRun, Logged, Flat, Partial, LocksFit, KernelFits, SetupIsQuiet, ConnsFit, SendersFit;
    RunKeeps(n, states, moves, k);
    WireAt(states[k], conn);
  }

  /** The two locks never deadlock: while any thread is under way, some thread can move without a new one starting. */
  lemma NoDeadlock(n: nat, states: seq<State>, moves: seq<(nat, Action)>, k: nat, i: nat)
    returns (j: nat, a: Action)
    requires IsRun(n, states, moves) && k < |states| && i < |states[k].threads| && states[k].threads[i] != Resting
    ensures Enabled(states[k], j, a) && !IsStart(a)
  {
    hide IsRun, Inv;
    RunKeeps(n, states, moves, k);
    j, a := SomebodyMoves(states[k], i);
  }

  lemma SomebodyMoves(g: State, i: nat) returns (j: nat, a: Action)
    requires Inv(g) && i < |g.threads| && g.threads[i] != Resting
    ensures Enabled(g, j, a) && !IsStart(a)
  {
    hide WiresFit, FutureIsBlank, ConnsFit, SetupIsQuiet, Flat;
    if g.send.Some? {
      j := g.send.value;
      a := match g.threads[j]
           case HoldSend(_) => LoadSocket
           case InLoop(_, _, _, _) => if g.threads[j].offset < |g.threads[j].payload| then SendError else SendDone
           case _ => NativeClose;
      assert SenderFits(g.threads[j], g.kernel);
    } else if g.life.Some? {
      j := g.life.value;
      a := match g.threads[j]
           case Closing => Exchange
           case Exchanged(_, _) => TakeSendToClose
           case Connecting => if g.socket == None then OpenFails else AlreadyOpen
           case _ => ConnectFails;
    } else {
      j := i;
      a := if g.threads[i].WantSend? then TakeSend else TakeLife;
    }
  }

  // ----- What the operations achieve ---------------------------------------

  /** A thread that ends where it began leaves the threads as they were. */
  lemma Returned(threads: seq<Pc>, i: nat, pc: Pc)
    requires i < |threads| && threads[i] == Resting
    ensures threads[i := pc][i := Resting] == threads
  {
  }

  lemma Overtaken(threads: seq<Pc>, i: nat, pc: Pc, next: Pc)
    requires i < |threads|
    ensures threads[i := pc][i := next] == threads[i := next]
  {
  }

  /** With a connection and the send lock free, a send puts its whole frame on that connection and on no other. */
  lemma SendGoesThrough(g: State, i: nat, payload: Bytes, conn: nat)
    returns (w: State, x: State, y: State, z: State, h: State)
    requires i < |g.threads| && g.threads[i] == Resting && g.send == None && payload != []
    requires g.socket.Some? && g.socket.value in g.kernel && g.kernel[g.socket.value] == conn
    ensures Follows(g, i, StartSend(payload), w) && Follows(w, i, TakeSend, x) && Follows(x, i, LoadSocket, y)
    ensures Follows(y, i, SendSome(|payload|), z) && Follows(z, i, SendDone, h)
    ensures h == g.(wires := g.wires[conn := Logged(g.wires, conn) + payload],
                    frames := g.frames[conn := Logged(g.frames, conn) + [payload]])
  {
    w := After(g, i, StartSend(payload));
    x := After(w, i, TakeSend);
    Overtaken(g.threads, i, WantSend(payload), HoldSend(payload));
    y, z, h := HolderGoesThrough(x, i, payload, conn);
    Overtaken(g.threads, i, HoldSend(payload), Resting);
    Returned(g.threads, i, HoldSend(payload));
  }

  lemma HolderGoesThrough(x: State, i: nat, payload: Bytes, conn: nat) returns (y: State, z: State, h: State)
    requires i < |x.threads| && x.threads[i] == HoldSend(payload) && payload != []
    requires x.socket.Some? && x.socket.value in x.kernel && x.kernel[x.socket.value] == conn
    ensures Follows(x, i, LoadSocket, y) && Follows(y, i, SendSome(|payload|), z) && Follows(z, i, SendDone, h)
    ensures h == x.(threads := x.threads[i := Resting], send := None,
                    wires := x.wires[conn := Logged(x.wires, conn) + payload],
                    frames := x.frames[conn := Logged(x.frames, conn) + [payload]])
  {
    y := After(x, i, LoadSocket);
    z := After(y, i, SendSome(|payload|));
    h := After(z, i, SendDone);
    var n := |payload|;
    assert payload[0..n] == payload;
    Overtaken(x.threads, i, InLoop(payload, x.socket.value, conn, 0), InLoop(payload, x.socket.value, conn, n));
    Overtaken(x.threads, i, InLoop(payload, x.socket.value, conn, n), Resting);
  }

  /** Without a connection it is refused: nothing is sent and the lock is free again. */
  lemma SendIsRefused(g: State, i: nat, payload: Bytes) returns (w: State, x: State, h: State)
    requires i < |g.threads| && g.threads[i] == Resting && g.send == None && payload != [] && g.socket == None
    ensures Follows(g, i, StartSend(payload), w) && Follows(w, i, TakeSend, x) && Follows(x, i, LoadSocket, h)
    ensures h == g
  {
    w := After(g, i, StartSend(payload));
    x := After(w, i, TakeSend);
    h := After(x, i, LoadSocket);
    assert h.threads == g.threads;
  }

  /** Connecting without a connection stores whatever new descriptor the kernel gives, for a new connection. */
  lemma ConnectGoesThrough(g: State, i: nat, fd: nat) returns (w: State, x: State, y: State, h: State)
    requires i < |g.threads| && g.threads[i] == Resting && g.life == None && g.socket == None && fd !in g.kernel
    ensures Follows(g, i, StartConnect, w) && Follows(w, i, TakeLife, x) && Follows(x, i, OpenNative(fd), y)
    ensures Follows(y, i, Publish, h)
    ensures h == g.(socket := Some(fd), kernel := g.kernel[fd := g.next], next := g.next + 1)
  {
    w := After(g, i, StartConnect);
    x := After(w, i, TakeLife);
    Overtaken(g.threads, i, WantConnect, Connecting);
    y, h := ConnecterGoesThrough(x, i, fd);
    Returned(g.threads, i, Connecting);
  }

  lemma ConnecterGoesThrough(x: State, i: nat, fd: nat) returns (y: State, h: State)
    requires i < |x.threads| && x.threads[i] == Connecting && x.socket == None && fd !in x.kernel
    ensures Follows(x, i, OpenNative(fd), y) && Follows(y, i, Publish, h)
    ensures h == x.(threads := x.threads[i := Resting], life := None, socket := Some(fd),
                    kernel := x.kernel[fd := x.next], next := x.next + 1)
  {
    y := After(x, i, OpenNative(fd));
    h := After(y, i, Publish);
    Overtaken(x.threads, i, Opened(fd, x.next), Resting);
  }

  /** Closing with both locks free gives up the stored descriptor and closes its connection. */
  lemma CloseGoesThrough(g: State, i: nat, fd: nat) returns (w: State, x: State, y: State, z: State, h: State)
    requires i < |g.threads| && g.threads[i] == Resting && g.life == None && g.send == None
    requires g.socket == Some(fd) && fd in g.kernel
    ensures Follows(g, i, StartClose, w) && Follows(w, i, TakeLife, x) && Follows(x, i, Exchange, y)
    ensures Follows(y, i, TakeSendToClose, z) && Follows(z, i, NativeClose, h)
    ensures h == g.(socket := None, kernel := g.kernel - {fd}, closed := g.closed + [g.kernel[fd]])
  {
    w := After(g, i, StartClose);
    x := After(w, i, TakeLife);
    Overtaken(g.threads, i, WantClose, Closing);
    y, z, h := CloserGoesThrough(x, i, fd);
    Returned(g.threads, i, Closing);
  }

  lemma CloserGoesThrough(x: State, i: nat, fd: nat) returns (y: State, z: State, h: State)
    requires i < |x.threads| && x.threads[i] == Closing && x.send == None && x.socket == Some(fd) && fd in x.kernel
    ensures Follows(x, i, Exchange, y) && Follows(y, i, TakeSendToClose, z) && Follows(z, i, NativeClose, h)
    ensures h == x.(threads := x.threads[i := Resting], life := None, socket := None, kernel := x.kernel - {fd},
                    closed := x.closed + [x.kernel[fd]])
  {
    y := After(x, i, Exchange);
    z := After(y, i, TakeSendToClose);
    h := After(z, i, NativeClose);
    Overtaken(x.threads, i, Exchanged(fd, x.kernel[fd]), HoldBoth(fd, x.kernel[fd]));
    Overtaken(x.threads, i, HoldBoth(fd, x.kernel[fd]), Resting);
  }
}

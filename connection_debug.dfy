/** The connection debugger (Frontend/lib/connection-debug.ts): a singleton
    that remembers whether the last backend and socket tests succeeded and
    keeps a log of failure messages. The network is not modelled: each test
    receives its outcome as a parameter, and the clock reading that
    `new Date()` would give is a parameter too. */
module ConnectionDebug {
  import opened Wrappers
  import opened JsText

  /** What a `catch` clause receives: an `Error` with its message, or any
      other thrown value. */
  datatype Thrown = ErrorObject(message: string) | OtherValue

  /** How the `fetch` of `/api/health` ends: a response with its `ok` flag, or
      an exception. */
  datatype BackendOutcome = Responded(ok: bool) | FetchThrew(error: Thrown)

  /** How the socket test ends: the socket connects, reports `connect_error`
      (with the error's `message`, if any), the five-second timer fires
      first, or attaching the listeners with `io.on` throws. */
  datatype SocketOutcome =
    | Connected
    | ConnectError(message: Option<string>)
    | TimedOut
    | SetupThrew(error: Thrown)

  /** The debugger's status record; `timestamp` is a clock reading. */
  datatype ConnectionStatus = ConnectionStatus(backend: bool, socket: bool, timestamp: int, errors: seq<string>)

  const BackendFailurePrefix: string := "Backend connection failed: "
  const SocketFailurePrefix: string := "Socket connection failed: "
  const SocketSetupPrefix: string := "Socket connection test error: "
  const SocketTimeoutMessage: string := "Socket connection timeout"
  const UnknownError: string := "Unknown error"

  /** `error instanceof Error ? error.message : 'Unknown error'`. */
  function ThrownMessage(e: Thrown): string
  {
    match e
    case ErrorObject(m) => m
    case OtherValue => UnknownError
  }

  /** `error.message || 'Unknown error'`. */
  function EventMessage(m: Option<string>): string
  {
    if m.Some? && m.value != "" then m.value else UnknownError
  }

  /** Whether a test outcome is a failure that the debugger logs. */
  predicate BackendLogs(o: BackendOutcome) { o.FetchThrew? }
  predicate SocketLogs(o: SocketOutcome) { !o.Connected? }

  /** The message a logged backend failure appends. */
  function BackendMessage(o: BackendOutcome): string
    requires BackendLogs(o)
  {
    BackendFailurePrefix + ThrownMessage(o.error)
  }

  /** The message a logged socket failure appends. */
  function SocketMessage(o: SocketOutcome): string
    requires SocketLogs(o)
  {
    match o
    case ConnectError(m) => SocketFailurePrefix + EventMessage(m)
    case TimedOut => SocketTimeoutMessage
    case SetupThrew(e) => SocketSetupPrefix + ThrownMessage(e)
  }

  /** The status after `testBackendConnection`: a response sets `backend` to
      its `ok` flag and logs nothing, even when `ok` is false; an exception
      clears `backend` and logs one message. */
  function AfterBackendTest(s: ConnectionStatus, o: BackendOutcome): ConnectionStatus
  {
    match o
    case Responded(ok) => s.(backend := ok)
    case FetchThrew(_) => s.(backend := false, errors := s.errors + [BackendMessage(o)])
  }

  /** What `testBackendConnection` resolves to. */
  function BackendVerdict(o: BackendOutcome): bool { o.Responded? && o.ok }

  /** The status after `testSocketConnection`: a connect sets `socket` and
      logs nothing; any other outcome clears `socket` and logs one message.
      For `SetupThrew` this is what the `catch` block of the test does; see
      `SocketTestAsWritten` for what the code as written does instead. */
  function AfterSocketTest(s: ConnectionStatus, o: SocketOutcome): ConnectionStatus
  {
    if o.Connected? then s.(socket := true)
    else s.(socket := false, errors := s.errors + [SocketMessage(o)])
  }

  /** What `testSocketConnection` resolves to. */
  function SocketVerdict(o: SocketOutcome): bool { o.Connected? }

  class ConnectionDebugger {
    var backend: bool
    var socket: bool
    var timestamp: int
    var errors: seq<string>

    function Status(): ConnectionStatus
      reads this
    {
      ConnectionStatus(backend, socket, timestamp, errors)
    }

    /** A new debugger: nothing connected, no errors. */
    constructor (now: int)
      ensures Status() == ConnectionStatus(false, false, now, [])
    {
      backend, socket, timestamp, errors := false, false, now, [];
    }

    method TestBackendConnection(o: BackendOutcome) returns (connected: bool)
      modifies this
      ensures Status() == AfterBackendTest(old(Status()), o)
      ensures connected == BackendVerdict(o) == backend
    {
      match o {
        case Responded(ok) =>
          backend := ok;
          connected := ok;
        case FetchThrew(e) =>
          backend := false;
          errors := errors + [BackendFailurePrefix + ThrownMessage(e)];
          connected := false;
      }
    }

    method TestSocketConnection(o: SocketOutcome) returns (connected: bool)
      modifies this
      ensures Status() == AfterSocketTest(old(Status()), o)
      ensures connected == SocketVerdict(o) == socket
    {
      match o {
        case Connected =>
          socket := true;
          connected := true;
        case ConnectError(m) =>
          socket := false;
          errors := errors + [SocketFailurePrefix + EventMessage(m)];
          connected := false;
        case TimedOut =>
          socket := false;
          errors := errors + [SocketTimeoutMessage];
          connected := false;
        case SetupThrew(e) =>
          socket := false;
          errors := errors + [SocketSetupPrefix + ThrownMessage(e)];
          connected := false;
      }
    }

    /** A copy of the status stamped with the current time; nothing changes. */
    method GetConnectionStatus(now: int) returns (s: ConnectionStatus)
      ensures s.backend == backend && s.socket == socket && s.errors == errors
      ensures s.timestamp == now
    {
      s := ConnectionStatus(backend, socket, now, errors);
    }

    /** Empties the log and stamps the time; the two flags stay as they are. */
    method ResetErrors(now: int)
      modifies this
      ensures Status() == ConnectionStatus(old(backend), old(socket), now, [])
    {
      errors := [];
      timestamp := now;
    }
  }

  /** The class's static `instance` slot. */
  class InstanceSlot {
    var instance: ConnectionDebugger?

    constructor ()
      ensures instance == null
    {
      instance := null;
    }

    /** `getInstance`: the first call creates the debugger, every later call
        returns that same object untouched. */
    method GetInstance(now: int) returns (d: ConnectionDebugger)
      modifies this
      ensures instance == d
      ensures old(instance) != null ==> d == old(instance) && unchanged(d)
      ensures old(instance) == null ==> fresh(d) && d.Status() == ConnectionStatus(false, false, now, [])
    {
      if instance == null {
        instance := new ConnectionDebugger(now);
      }
      d := instance;
    }
  }

  /** Loading the module creates the slot and exports `getInstance()`; any
      later `getInstance()` hands out the exported object. */
  method LoadModule(now: int, later: int) returns (slot: InstanceSlot, exported: ConnectionDebugger, again: ConnectionDebugger)
    ensures exported == again == slot.instance
    ensures fresh(exported) && exported.Status() == ConnectionStatus(false, false, now, [])
  {
    slot := new InstanceSlot();
    exported := slot.GetInstance(now);
    again := slot.GetInstance(later);
  }

  // ---------------------------------------------------------------------
  // The socket test as written

  /** How a call of `testSocketConnection` settles: resolved with a verdict,
      or rejected with what was thrown; with the status right after. */
  datatype SocketCall = Resolved(connected: bool, status: ConnectionStatus) | Rejected(error: Thrown, status: ConnectionStatus)

  /** `testSocketConnection` as the code is written. The listeners are
      attached inside the executor of `new Promise`, and a throw there rejects
      that promise instead of leaving the `try`; the promise is returned
      without `await`, so the rejection passes the `catch` by and the call
      rejects, logging nothing. (The timer armed before the throw still fires
      later; late events are outside this model.) */
  function SocketTestAsWritten(s: ConnectionStatus, o: SocketOutcome): SocketCall
  {
    match o
    case SetupThrew(e) => Rejected(e, s)
    case _ => Resolved(SocketVerdict(o), AfterSocketTest(s, o))
  }

  /** The code as written and the intended behaviour agree on every event
      outcome, but when attaching the listeners throws the written code
      rejects and never reaches its `catch`: the intended `false` verdict and
      the `Socket connection test error:` message never happen. */
  lemma SetupThrowSkipsCatch(s: ConnectionStatus, o: SocketOutcome)
    ensures !o.SetupThrew? ==>
      SocketTestAsWritten(s, o) == Resolved(SocketVerdict(o), AfterSocketTest(s, o))
    ensures o.SetupThrew? ==>
      && SocketTestAsWritten(s, o).Rejected?
      && SocketTestAsWritten(s, o).status == s
      && AfterSocketTest(s, o).errors == s.errors + [SocketSetupPrefix + ThrownMessage(o.error)]
      && !SocketVerdict(o)
  {
  }

  /** A concrete case: with a non-socket `io`, `io.on` throws a `TypeError`;
      the written code rejects where the intended code logs one message. */
  lemma SetupThrowExample()
    ensures var s := ConnectionStatus(false, false, 0, []);
      var e := ErrorObject(NotAFunction);
      && SocketTestAsWritten(s, SetupThrew(e)) == Rejected(e, s)
      && AfterSocketTest(s, SetupThrew(e)).errors == [SocketSetupPrefix + NotAFunction]
  {
  }

  /** The message of the `TypeError` thrown when `io` has no `on` method. */
  const NotAFunction: string := "io.on is not a function"

  // ---------------------------------------------------------------------
  // Sequences of operations

  /** One call on the debugger. */
  datatype Op = TestBackend(backendOutcome: BackendOutcome) | TestSocket(socketOutcome: SocketOutcome) | Reset(now: int)

  function Apply(s: ConnectionStatus, op: Op): ConnectionStatus
  {
    match op
    case TestBackend(o) => AfterBackendTest(s, o)
    case TestSocket(o) => AfterSocketTest(s, o)
    case Reset(now) => ConnectionStatus(s.backend, s.socket, now, [])
  }

  function Run(s: ConnectionStatus, ops: seq<Op>): ConnectionStatus
    decreases |ops|
  {
    if ops == [] then s else Run(Apply(s, ops[0]), ops[1..])
  }

  /** The messages one operation logs: one for a failing test, none
      otherwise. */
  function LoggedBy(op: Op): seq<string>
  {
    match op
    case TestBackend(o) => if BackendLogs(o) then [BackendMessage(o)] else []
    case TestSocket(o) => if SocketLogs(o) then [SocketMessage(o)] else []
    case Reset(_) => []
  }

  /** Whether an operation is a failing test. */
  predicate IsFailure(op: Op)
  {
    match op
    case TestBackend(o) => BackendLogs(o)
    case TestSocket(o) => SocketLogs(o)
    case Reset(_) => false
  }

  /** The messages the operations log, in order. */
  function Logged(ops: seq<Op>): seq<string>
    decreases |ops|
  {
    if ops == [] then [] else LoggedBy(ops[0]) + Logged(ops[1..])
  }

  /** The number of failing tests among the operations. */
  function Failures(ops: seq<Op>): nat
    decreases |ops|
  {
    if ops == [] then 0 else (if IsFailure(ops[0]) then 1 else 0) + Failures(ops[1..])
  }

  /** A test appends what it logs; a failing one appends exactly one message. */
  lemma ApplyAppends(s: ConnectionStatus, op: Op)
    requires !op.Reset?
    ensures Apply(s, op).errors == s.errors + LoggedBy(op)
    ensures |LoggedBy(op)| == if IsFailure(op) then 1 else 0
  {
  }

  predicate NoReset(ops: seq<Op>) { forall i :: 0 <= i < |ops| ==> !ops[i].Reset? }

  /** Without a reset the log only grows at its end, by exactly the messages
      of the failing tests, one each. */
  lemma LogOnlyGrows(s: ConnectionStatus, ops: seq<Op>)
    requires NoReset(ops)
    ensures Run(s, ops).errors == s.errors + Logged(ops)
    ensures s.errors <= Run(s, ops).errors
    ensures |Run(s, ops).errors| == |s.errors| + Failures(ops)
  {
    RunAppendsLogged(s, ops);
    LoggedCountsFailures(ops);
    assert s.errors + Logged(ops) == Run(s, ops).errors;
    assert (s.errors + Logged(ops))[..|s.errors|] == s.errors;
  }

  lemma {:induction false} RunAppendsLogged(s: ConnectionStatus, ops: seq<Op>)
    requires NoReset(ops)
    ensures Run(s, ops).errors == s.errors + Logged(ops)
    decreases |ops|
  {
    if ops != [] {
      assert NoReset(ops[1..]) by {
        forall i | 0 <= i < |ops[1..]| ensures !ops[1..][i].Reset? {
          assert ops[1..][i] == ops[i + 1];
        }
      }
      var t := Apply(s, ops[0]);
      assert Run(s, ops) == Run(t, ops[1..]);
      assert Logged(ops) == LoggedBy(ops[0]) + Logged(ops[1..]);
      ApplyAppends(s, ops[0]);
      RunAppendsLogged(t, ops[1..]);
      assert (s.errors + LoggedBy(ops[0])) + Logged(ops[1..]) == s.errors + (LoggedBy(ops[0]) + Logged(ops[1..]));
    }
  }

  lemma {:induction false} LoggedCountsFailures(ops: seq<Op>)
    ensures |Logged(ops)| == Failures(ops)
    decreases |ops|
  {
    if ops != [] {
      LoggedCountsFailures(ops[1..]);
      if ops[0].Reset? {
        assert LoggedBy(ops[0]) == [];
      } else {
        ApplyAppends(ConnectionStatus(false, false, 0, []), ops[0]);
      }
    }
  }

  /** After a reset the log holds exactly the messages logged since. */
  lemma LogSinceReset(s: ConnectionStatus, now: int, ops: seq<Op>)
    requires NoReset(ops)
    ensures Run(s, [Reset(now)] + ops).errors == Logged(ops)
  {
    assert ([Reset(now)] + ops)[1..] == ops;
    RunAppendsLogged(Apply(s, Reset(now)), ops);
  }

  /** The last backend test decides `backend`; socket tests and resets leave
      it alone. */
  function LastBackend(start: bool, ops: seq<Op>): bool
    decreases |ops|
  {
    if ops == [] then start
    else if ops[|ops| - 1].TestBackend? then BackendVerdict(ops[|ops| - 1].backendOutcome)
    else LastBackend(start, ops[..|ops| - 1])
  }

  lemma {:induction false} RunSnoc(s: ConnectionStatus, ops: seq<Op>, op: Op)
    ensures Run(s, ops + [op]) == Apply(Run(s, ops), op)
    decreases |ops|
  {
    if ops != [] {
      assert (ops + [op])[1..] == ops[1..] + [op];
      RunSnoc(Apply(s, ops[0]), ops[1..], op);
    }
  }

  lemma {:induction false} BackendIsLastVerdict(s: ConnectionStatus, ops: seq<Op>)
    ensures Run(s, ops).backend == LastBackend(s.backend, ops)
    decreases |ops|
  {
    if ops != [] {
      var init, op := ops[..|ops| - 1], ops[|ops| - 1];
      assert init + [op] == ops;
      RunSnoc(s, init, op);
      BackendIsLastVerdict(s, init);
    }
  }

  /** What the connection banner does on each check: reset the log, test the
      backend, and on failure show the log. A response, even a failing one,
      leaves the log empty; an exception leaves exactly its one message. */
  method CheckConnection(d: ConnectionDebugger, o: BackendOutcome, now: int, later: int)
    returns (connected: bool, shown: seq<string>)
    modifies d
    ensures connected == BackendVerdict(o)
    ensures shown == if BackendLogs(o) then [BackendMessage(o)] else []
    ensures d.Status() == AfterBackendTest(ConnectionStatus(old(d.backend), old(d.socket), now, []), o)
    ensures shown == d.errors
  {
    d.ResetErrors(now);
    connected := d.TestBackendConnection(o);
    var status := d.GetConnectionStatus(later);
    shown := status.errors;
  }
}

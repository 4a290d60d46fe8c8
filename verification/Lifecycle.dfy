/** Start-up, clean-up and the worker thread, as steps under one mutex.

    Every step touches shared state once. Any number of host threads may call the extension;
    those outside the mutex have no state of their own, so only its holder is recorded. */
module Lifecycle {
  import opened Bytes

  // ------------------------------------------------------------------ state

  /** Where a server's worker thread is; `client` is the socket it is serving. */
  datatype WorkerPc =
    | AtLoop
    | Polling
    | Receiving(client: nat)
    | Knocking(client: nat)   // a request is to be routed: waiting for the mutex
    | Entered(client: nat)    // holds the mutex, has not looked at the router yet
    | Routing(client: nat)    // holds the mutex, uses the router
    | Executing(client: nat)  // holds the mutex, inside Execute
    | Answering(client: nat)
    | Leaving
    | Done
  {
    predicate HoldsMutex() {
      Entered? || Routing? || Executing?
    }

    function Client(): set<nat> {
      match this
      case Receiving(c) => {c}
      case Knocking(c) => {c}
      case Entered(c) => {c}
      case Routing(c) => {c}
      case Executing(c) => {c}
      case Answering(c) => {c}
      case _ => {}
    }
  }

  /** `worker` is present while the thread can still be joined. */
  datatype Server = Server(running: bool, stopRequested: bool, listen: Option<nat>, wsa: bool, worker: Option<WorkerPc>)

  const NEW_SERVER := Server(false, false, None, false, None)

  /** The steps of `HttpServer::Stop`. */
  datatype StopPc = Check | CloseListener | Join | JoinOnly | Finish

  /** Why a server is stopped: it is replaced, it is cleaned up, or it did not start. */
  datatype Reason = Replaced | CleanedUp | NotStarted

  datatype HostPc =
    | Initializing
    | Starting(server: nat)
    | Cleaning
    | Stopping(server: nat, pc: StopPc, why: Reason)

  datatype Mutex = Free | ByHost(pc: HostPc) | ByWorker(server: nat)

  /** The extension's shared state and the resources taken from the system. A socket or start-up
      given back that is not held is a fault. */
  datatype State = State(
    mutex: Mutex, servers: seq<Server>, current: Option<nat>, router: bool, executor: bool,
    open: set<nat>, closed: set<nat>, handedOut: nat, startups: int, fault: bool)

  const INITIAL := State(Free, [], None, false, false, {}, {}, 0, 0, false)

  datatype Action = EnterInitialize | EnterCleanup | HostStep(choice: bool) | WorkerStep(server: nat, choice: bool)

  // ------------------------------------------------------------------ steps

  function CloseSocket(s: State, socket: nat): State {
    s.(open := s.open - {socket}, closed := s.closed + {socket}, fault := s.fault || socket !in s.open)
  }

  function WithServer(s: State, i: nat, server: Server): State
    requires i < |s.servers|
  {
    s.(servers := s.servers[i := server])
  }

  /** After `Stop` has returned. */
  function Stopped(s: State, why: Reason): State {
    match why
    case Replaced => s.(mutex := if s.current.Some? then ByHost(Starting(s.current.value)) else Free)
    case _ => s.(mutex := Free, current := None, router := false, executor := false)
  }

  function StopStep(s: State, i: nat, pc: StopPc, why: Reason): Option<State>
    requires i < |s.servers|
  {
    var server := s.servers[i];
    match pc
    case Check =>
      if !server.running && server.listen.None? then
        if server.worker.Some? then Some(s.(mutex := ByHost(Stopping(i, JoinOnly, why)))) else Some(Stopped(s, why))
      else Some(WithServer(s, i, server.(stopRequested := true)).(mutex := ByHost(Stopping(i, CloseListener, why))))
    case CloseListener =>
      var after := if server.listen.Some? then CloseSocket(s, server.listen.value) else s;
      Some(WithServer(after, i, server.(listen := None)).(mutex := ByHost(Stopping(i, Join, why))))
    case Join =>
      if server.worker.Some? && !server.worker.value.Done? then None
      else Some(WithServer(s, i, server.(worker := None)).(mutex := ByHost(Stopping(i, Finish, why))))
    case JoinOnly =>
      if server.worker.Some? && !server.worker.value.Done? then None
      else Some(Stopped(WithServer(s, i, server.(worker := None)), why))
    case Finish =>
      var after := if server.wsa then s.(startups := s.startups - 1, fault := s.fault || s.startups <= 0) else s;
      Some(Stopped(WithServer(after, i, server.(running := false, wsa := false)), why))
  }

  /** The next step of the host that holds the mutex. `choice` decides whether a start succeeds. */
  function HostNext(s: State, pc: HostPc, choice: bool): Option<State> {
    match pc
    case Initializing =>
      if s.current.Some? && s.current.value < |s.servers| && s.servers[s.current.value].running
      then Some(s.(mutex := Free))
      else
        var made := s.(servers := s.servers + [NEW_SERVER], current := Some(|s.servers|), router := true,
          executor := true);
        Some(made.(mutex := ByHost(if s.current.Some? then Stopping(s.current.value, Check, Replaced)
          else Starting(|s.servers|))))
    case Starting(i) =>
      if i >= |s.servers| then None
      else if choice then
        Some(WithServer(s, i, Server(true, false, Some(s.handedOut), true, Some(AtLoop)))
             .(mutex := Free, open := s.open + {s.handedOut}, handedOut := s.handedOut + 1, startups := s.startups + 1))
      else Some(s.(mutex := ByHost(Stopping(i, Check, NotStarted))))
    case Cleaning =>
      if s.current.Some? then Some(s.(mutex := ByHost(Stopping(s.current.value, Check, CleanedUp))))
      else Some(s.(mutex := Free, router := false, executor := false))
    case Stopping(i, stop, why) => if i >= |s.servers| then None else StopStep(s, i, stop, why)
  }

  function Moved(s: State, i: nat, pc: WorkerPc): State
    requires i < |s.servers|
  {
    WithServer(s, i, s.servers[i].(worker := Some(pc)))
  }

  /** The next step of a worker. `choice` decides whether a client comes, whether its request goes
      to the router, and whether the router runs a command. */
  function WorkerNext(s: State, i: nat, pc: WorkerPc, choice: bool): Option<State>
    requires i < |s.servers|
  {
    match pc
    case AtLoop => Some(Moved(s, i, if s.servers[i].stopRequested then Leaving else Polling))
    case Polling =>
      if choice && s.servers[i].listen.Some?
      then Some(Moved(s, i, Receiving(s.handedOut)).(open := s.open + {s.handedOut}, handedOut := s.handedOut + 1))
      else Some(Moved(s, i, AtLoop))
    case Receiving(c) => Some(Moved(s, i, if choice then Knocking(c) else Answering(c)))
    case Knocking(c) => if s.mutex.Free? then Some(Moved(s, i, Entered(c)).(mutex := ByWorker(i))) else None
    case Entered(c) => Some(if s.router then Moved(s, i, Routing(c)) else Moved(s, i, Answering(c)).(mutex := Free))
    case Routing(c) => Some(if choice then Moved(s, i, Executing(c)) else Moved(s, i, Answering(c)).(mutex := Free))
    case Executing(c) => Some(Moved(s, i, Answering(c)).(mutex := Free))
    case Answering(c) => Some(Moved(CloseSocket(s, c), i, AtLoop))
    case Leaving => Some(WithServer(s, i, s.servers[i].(running := false, worker := Some(Done))))
    case Done => None
  }

  /** What an action does where it is possible. */
  function Next(s: State, a: Action): Option<State> {
    match a
    case EnterInitialize => if s.mutex.Free? then Some(s.(mutex := ByHost(Initializing))) else None
    case EnterCleanup => if s.mutex.Free? then Some(s.(mutex := ByHost(Cleaning))) else None
    case HostStep(choice) => if s.mutex.ByHost? then HostNext(s, s.mutex.pc, choice) else None
    case WorkerStep(i, choice) =>
      if i < |s.servers| && s.servers[i].worker.Some? then WorkerNext(s, i, s.servers[i].worker.value, choice) else None
  }

  function Run(s: State, actions: seq<Action>): Option<State>
    decreases |actions|
  {
    if actions == [] then Some(s)
    else match Next(s, actions[0]) case Some(t) => Run(t, actions[1..]) case None => None
  }

  // -------------------------------------------------------------- invariant

  ghost predicate Dead(server: Server) {
    !server.running && server.listen.None? && !server.wsa && server.worker.None?
  }

  ghost predicate Live(server: Server) {
    server.running && !server.stopRequested && server.listen.Some? && server.wsa &&
    server.worker.Some? && !server.worker.value.Leaving? && !server.worker.value.Done?
  }

  /** What the holder of the mutex may rely on about the current server. */
  ghost predicate AsExpected(mutex: Mutex, i: nat, server: Server) {
    match mutex
    case ByHost(Starting(j)) => j == i && server == NEW_SERVER
    case ByHost(Stopping(j, pc, NotStarted)) => j == i && pc == Check && server == NEW_SERVER
    case ByHost(Stopping(j, Check, CleanedUp)) => j == i && Live(server)
    case ByHost(Stopping(j, CloseListener, CleanedUp)) =>
      j == i && server.stopRequested && server.listen.Some? && server.wsa && server.worker.Some?
    case ByHost(Stopping(j, Join, CleanedUp)) =>
      j == i && server.stopRequested && server.listen.None? && server.wsa && server.worker.Some?
    case ByHost(Stopping(j, Finish, CleanedUp)) => j == i && server.listen.None? && server.wsa && server.worker.None?
    case ByHost(Stopping(_, _, _)) => false
    case _ => Live(server)
  }

  function SocketsOf(server: Server): set<nat> {
    (if server.listen.Some? then {server.listen.value} else {}) +
      (if server.worker.Some? then server.worker.value.Client() else {})
  }

  /** The current server accounts for every socket and start-up, and its worker for the mutex. */
  ghost predicate Accounts(s: State, i: nat, server: Server) {
    s.open == SocketsOf(server) &&
    (server.listen.Some? && server.worker.Some? ==> server.listen.value !in server.worker.value.Client()) &&
    s.startups == (if server.wsa then 1 else 0) &&
    (s.mutex == ByWorker(i) <==> server.worker.Some? && server.worker.value.HoldsMutex()) &&
    (s.mutex.ByWorker? ==> s.mutex.server == i)
  }

  ghost predicate Inv(s: State) {
    !s.fault && s.open !! s.closed && (forall x: nat :: x in s.open || x in s.closed <==> x < s.handedOut) &&
    (forall j :: 0 <= j < |s.servers| && s.current != Some(j) ==> Dead(s.servers[j])) &&
    match s.current
    case None =>
      !s.router && !s.executor && s.open == {} && s.startups == 0 &&
      (s.mutex.Free? || s.mutex == ByHost(Initializing) || s.mutex == ByHost(Cleaning))
    case Some(i) =>
      s.router && s.executor && i < |s.servers| && AsExpected(s.mutex, i, s.servers[i]) && Accounts(s, i, s.servers[i])
  }

  lemma InitialInv()
    ensures Inv(INITIAL)
  {
  }

  /** A worker may move as long as it keeps its client and its hold on the mutex. */
  lemma MoveKeepsInv(s: State, i: nat, pc: WorkerPc)
    requires Inv(s) && s.current == Some(i) && s.servers[i].worker.Some?
    requires var was := s.servers[i].worker.value; pc.Client() == was.Client() && pc.HoldsMutex() == was.HoldsMutex()
    requires !s.servers[i].stopRequested ==> !pc.Leaving? && !pc.Done?
    ensures Inv(Moved(s, i, pc))
  {
    hide WorkerPc.Client, WorkerPc.HoldsMutex;
  }

  lemma LockKeepsInv(s: State, i: nat, c: nat)
    requires Inv(s) && s.current == Some(i) && s.servers[i].worker == Some(Knocking(c)) && s.mutex.Free?
    ensures Inv(Moved(s, i, Entered(c)).(mutex := ByWorker(i)))
  {
  }

  lemma UnlockKeepsInv(s: State, i: nat, c: nat)
    requires Inv(s) && s.current == Some(i) && s.servers[i].worker.Some?
    requires s.servers[i].worker.value.HoldsMutex() && s.servers[i].worker.value.Client() == {c}
    ensures Inv(Moved(s, i, Answering(c)).(mutex := Free))
  {
  }

  lemma AcceptKeepsInv(s: State, i: nat)
    requires Inv(s) && s.current == Some(i) && s.servers[i].worker == Some(Polling) && s.servers[i].listen.Some?
    ensures Inv(Moved(s, i, Receiving(s.handedOut)).(open := s.open + {s.handedOut}, handedOut := s.handedOut + 1))
  {
  }

  lemma HangUpKeepsInv(s: State, i: nat, c: nat)
    requires Inv(s) && s.current == Some(i) && s.servers[i].worker == Some(Answering(c))
    ensures Inv(Moved(CloseSocket(s, c), i, AtLoop))
  {
  }

  lemma LeaveKeepsInv(s: State, i: nat)
    requires Inv(s) && s.current == Some(i) && s.servers[i].worker == Some(Leaving)
    ensures Inv(WithServer(s, i, s.servers[i].(running := false, worker := Some(Done))))
  {
  }

  lemma WorkerKeepsInv(s: State, i: nat, choice: bool)
    requires Inv(s) && i < |s.servers| && s.servers[i].worker.Some?
    requires WorkerNext(s, i, s.servers[i].worker.value, choice).Some?
    ensures Inv(WorkerNext(s, i, s.servers[i].worker.value, choice).value)
  {
    assert s.current == Some(i);
    hide Inv;
    match s.servers[i].worker.value
    case AtLoop => MoveKeepsInv(s, i, if s.servers[i].stopRequested then Leaving else Polling);
    case Polling =>
      if choice && s.servers[i].listen.Some? { AcceptKeepsInv(s, i); } else { MoveKeepsInv(s, i, AtLoop); }
    case Receiving(c) => MoveKeepsInv(s, i, if choice then Knocking(c) else Answering(c));
    case Knocking(c) => LockKeepsInv(s, i, c);
    case Entered(c) => if s.router { MoveKeepsInv(s, i, Routing(c)); } else { UnlockKeepsInv(s, i, c); }
    case Routing(c) => if choice { MoveKeepsInv(s, i, Executing(c)); } else { UnlockKeepsInv(s, i, c); }
    case Executing(c) => UnlockKeepsInv(s, i, c);
    case Answering(c) => HangUpKeepsInv(s, i, c);
    case Leaving => LeaveKeepsInv(s, i);
    case Done =>
  }

  lemma StopKeepsInv(s: State, i: nat, pc: StopPc, why: Reason)
    requires Inv(s) && s.mutex == ByHost(Stopping(i, pc, why)) && i < |s.servers| && StopStep(s, i, pc, why).Some?
    ensures Inv(StopStep(s, i, pc, why).value)
  {
    assert s.current == Some(i);
  }

  lemma HostKeepsInv(s: State, choice: bool)
    requires Inv(s) && s.mutex.ByHost? && HostNext(s, s.mutex.pc, choice).Some?
    ensures Inv(HostNext(s, s.mutex.pc, choice).value)
  {
    match s.mutex.pc
    case Stopping(i, pc, why) => StopKeepsInv(s, i, pc, why);
    case _ =>
  }

  lemma NextKeepsInv(s: State, a: Action)
    requires Inv(s) && Next(s, a).Some?
    ensures Inv(Next(s, a).value)
  {
    match a
    case HostStep(choice) => HostKeepsInv(s, choice);
    case WorkerStep(i, choice) => WorkerKeepsInv(s, i, choice);
    case _ =>
  }

  // --------------------------------------------------------------- theorems

  lemma {:induction false} RunKeepsInv(s: State, actions: seq<Action>)
    requires Inv(s) && Run(s, actions).Some?
    ensures Inv(Run(s, actions).value)
    decreases |actions|
  {
    hide Inv, Next;
    if actions == [] {
    } else {
      NextKeepsInv(s, actions[0]);
      RunKeepsInv(Next(s, actions[0]).value, actions[1..]);
    }
  }

  ghost predicate Reachable(s: State) {
    exists actions: seq<Action> :: Run(INITIAL, actions) == Some(s)
  }

  lemma ReachableInv(s: State)
    requires Reachable(s)
    ensures Inv(s)
  {
    hide Inv, Run;
    var actions: seq<Action> :| Run(INITIAL, actions) == Some(s);
    InitialInv();
    RunKeepsInv(INITIAL, actions);
  }

  /** Whether a server's worker is using the router, or executing a command. */
  ghost predicate UsesRouter(s: State, i: nat) {
    i < |s.servers| && s.servers[i].worker.Some? &&
      (s.servers[i].worker.value.Routing? || s.servers[i].worker.value.Executing?)
  }

  /** Whatever hosts and workers do, in whatever order: no two uses of the router overlap, none
      comes without a router and an executor, no socket or start-up is given back twice, and every
      socket handed out is either open or closed. */
  lemma SafeInEveryRun(s: State)
    requires Reachable(s)
    ensures !s.fault && 0 <= s.startups <= 1
    ensures forall i, j :: UsesRouter(s, i) && UsesRouter(s, j) ==> i == j
    ensures forall i :: UsesRouter(s, i) ==> s.router && s.executor && s.mutex == ByWorker(i)
    ensures s.open !! s.closed && forall x: nat :: x in s.open || x in s.closed <==> x < s.handedOut
  {
    ReachableInv(s);
  }

  /** Nothing is left: no thread, no socket, no start-up, no router. */
  ghost predicate Quiet(s: State) {
    (forall i :: 0 <= i < |s.servers| ==> Dead(s.servers[i])) && s.open == {} && s.startups == 0 &&
    s.current == None && !s.router && !s.executor && forall x: nat :: x in s.closed <==> x < s.handedOut
  }

  ghost predicate InCleanup(m: Mutex) {
    m.ByHost? && (m.pc.Cleaning? || (m.pc.Stopping? && m.pc.why == CleanedUp))
  }

  ghost predicate InInitialize(m: Mutex) {
    m.ByHost? && !InCleanup(m)
  }

  /** Whenever clean-up returns, the worker has been joined and nothing is left. */
  lemma CleanupLeavesNothing(s: State, a: Action, t: State)
    requires Reachable(s) && Next(s, a) == Some(t) && InCleanup(s.mutex) && t.mutex.Free?
    ensures Quiet(t)
  {
    ReachableInv(s);
    NextKeepsInv(s, a);
    hide Inv;
    CleanupEnds(s, a, t);
  }

  lemma CleanupEnds(s: State, a: Action, t: State)
    requires Inv(s) && Inv(t) && Next(s, a) == Some(t) && InCleanup(s.mutex) && t.mutex.Free?
    ensures Quiet(t)
  {
    hide WorkerPc.Client;
  }

  /** Whenever initialization returns, a server is running, or it failed and nothing is left. */
  lemma InitializeRunsOrLeavesNothing(s: State, a: Action, t: State)
    requires Reachable(s) && Next(s, a) == Some(t) && InInitialize(s.mutex) && t.mutex.Free?
    ensures Quiet(t) || (t.current.Some? && t.current.value < |t.servers| && Live(t.servers[t.current.value]) &&
            t.router && t.executor)
  {
    ReachableInv(s);
    NextKeepsInv(s, a);
    hide Next;
  }

  /** The guard before a start: initialization never replaces a server that was started. */
  lemma NeverReplaced(s: State)
    requires Reachable(s)
    ensures !(s.mutex.ByHost? && s.mutex.pc.Stopping? && s.mutex.pc.why == Replaced)
  {
    ReachableInv(s);
  }

  // -------------------------------------------------------------- standstill

  ghost predicate Stuck(s: State) {
    forall a: Action :: Next(s, a).None?
  }

  /** Clean-up waits for a worker that waits for clean-up. */
  ghost predicate WaitsForEachOther(s: State) {
    s.mutex.ByHost? && s.mutex.pc.Stopping? && s.mutex.pc.pc == Join && s.mutex.pc.server < |s.servers| &&
    s.servers[s.mutex.pc.server].worker.Some? && s.servers[s.mutex.pc.server].worker.value.Knocking?
  }

  /** That is the one way for everything to stand still... */
  lemma StuckExactlyWhenWaiting(s: State)
    requires Reachable(s)
    ensures Stuck(s) <==> WaitsForEachOther(s)
  {
    ReachableInv(s);
    if WaitsForEachOther(s) {
      forall a: Action ensures Next(s, a).None? {
        WaitingIsStuck(s, a);
      }
    } else {
      var a := SomethingMoves(s);
      assert Next(s, a).Some?;
    }
  }

  lemma WaitingIsStuck(s: State, a: Action)
    requires Inv(s) && WaitsForEachOther(s)
    ensures Next(s, a).None?
  {
    if a.WorkerStep? && a.server < |s.servers| && s.current != Some(a.server) {
      assert Dead(s.servers[a.server]);
    }
  }

  lemma SomethingMoves(s: State) returns (a: Action)
    requires Inv(s) && !WaitsForEachOther(s)
    ensures Next(s, a).Some?
  {
    match s.mutex
    case Free => a := EnterInitialize;
    case ByWorker(i) => a := WorkerStep(i, false);
    case ByHost(pc) =>
      a := HostStep(false);
      if pc.Stopping? && pc.pc == Join && !s.servers[pc.server].worker.value.Done? {
        a := WorkerStep(pc.server, false);
      }
  }

  lemma {:induction false} RunSnoc(s: State, actions: seq<Action>, a: Action)
    requires Run(s, actions).Some?
    ensures Run(s, actions + [a]) == Next(Run(s, actions).value, a)
    decreases |actions|
  {
    hide Next;
    if actions == [] {
      assert [] + [a] == [a] && [a][1..] == [];
    } else {
      assert (actions + [a])[1..] == actions[1..] + [a];
      RunSnoc(Next(s, actions[0]).value, actions[1..], a);
    }
  }

  lemma ReachableNext(s: State, a: Action)
    requires Reachable(s) && Next(s, a).Some?
    ensures Reachable(Next(s, a).value)
  {
    hide Next, Run;
    var actions: seq<Action> :| Run(INITIAL, actions) == Some(s);
    RunSnoc(INITIAL, actions, a);
  }

  /** ...and it happens: a request arrives between a host entering clean-up and joining the worker. */
  lemma StandstillIsReachable() returns (s: State)
    ensures Reachable(s) && Stuck(s)
  {
    s := RequestArrives();
    ReachableNext(s, EnterCleanup);
    s := Next(s, EnterCleanup).value;
    ReachableNext(s, HostStep(false));
    s := Next(s, HostStep(false)).value;
    ReachableNext(s, HostStep(false));
    s := Next(s, HostStep(false)).value;
    ReachableNext(s, HostStep(false));
    s := Next(s, HostStep(false)).value;
    StuckExactlyWhenWaiting(s);
  }

  lemma RequestArrives() returns (s: State)
    ensures Reachable(s) && s.mutex.Free? && s.current == Some(0) && |s.servers| == 1
    ensures s.servers[0] == Server(true, false, Some(0), true, Some(Knocking(1)))
  {
    assert Run(INITIAL, []) == Some(INITIAL);
    s := INITIAL;
    ReachableNext(s, EnterInitialize);
    s := Next(s, EnterInitialize).value;
    ReachableNext(s, HostStep(true));
    s := Next(s, HostStep(true)).value;
    ReachableNext(s, HostStep(true));
    s := Next(s, HostStep(true)).value;
    ReachableNext(s, WorkerStep(0, true));
    s := Next(s, WorkerStep(0, true)).value;
    ReachableNext(s, WorkerStep(0, true));
    s := Next(s, WorkerStep(0, true)).value;
    ReachableNext(s, WorkerStep(0, true));
    s := Next(s, WorkerStep(0, true)).value;
  }
}

/** Starting the server: the search for a free port. */
module HttpStart {
  import opened Bytes

  newtype Port = x: int | 0 <= x < 0x1_0000

  const PORT_COUNT: nat := 0x1_0000
  const DEFAULT_MAX_ATTEMPTS: Port := 16
  const ADDRESS_IN_USE: int := 10048

  // --------------------------------------------------------------- winsock

  /** How one attempt to listen will go. A failing call leaves an error code. */
  datatype Attempt = NoSocket(code: int) | BindFails(code: int) | ListenFails(code: int) | Listens

  /** The socket library: any outcome at all for each attempt, the sockets it has handed out and
      not taken back, and the calls that started it and were not undone. */
  class Winsock {
    const startupWorks: bool
    const plan: nat -> Attempt
    /** What `getsockname` says: nothing, or the bound port; the library picks one for port 0. */
    const tellsName: bool
    const pick: Port
    var sockets: set<nat>
    var handedOut: nat
    var startups: nat
    var attempts: nat
    var binds: seq<Port>
    var bound: map<nat, Port>

    constructor (startupWorks: bool, plan: nat -> Attempt, tellsName: bool, pick: Port)
      ensures sockets == {} && startups == 0 && attempts == 0 && binds == [] && Valid()
      ensures this.startupWorks == startupWorks && this.plan == plan && this.tellsName == tellsName && this.pick == pick
    {
      this.startupWorks, this.plan, this.tellsName, this.pick := startupWorks, plan, tellsName, pick;
      sockets, handedOut, startups, attempts, binds, bound := {}, 0, 0, 0, [], map[];
    }

    ghost predicate Valid()
      reads this
    {
      forall s :: s in sockets ==> s < handedOut
    }

    method Startup() returns (ok: bool)
      modifies this`startups
      ensures ok == startupWorks && startups == old(startups) + if ok then 1 else 0
    {
      ok := startupWorks;
      if ok {
        startups := startups + 1;
      }
    }

    method Cleanup()
      requires startups > 0
      modifies this`startups
      ensures startups == old(startups) - 1
    {
      startups := startups - 1;
    }

    /** Begins the next attempt. */
    method Socket() returns (s: Option<nat>, code: int)
      requires Valid()
      modifies this`sockets, this`handedOut, this`attempts
      ensures Valid() && attempts == old(attempts) + 1
      ensures if plan(old(attempts)).NoSocket? then s == None && code == plan(old(attempts)).code &&
              sockets == old(sockets)
              else s == Some(old(handedOut)) && s.value !in old(sockets) && sockets == old(sockets) + {s.value}
    {
      var attempt := plan(attempts);
      attempts := attempts + 1;
      if attempt.NoSocket? {
        return None, attempt.code;
      }
      s, code := Some(handedOut), 0;
      sockets := sockets + {handedOut};
      handedOut := handedOut + 1;
    }

    method Bind(s: nat, port: Port) returns (ok: bool, code: int)
      requires s in sockets && attempts > 0
      modifies this`binds, this`bound
      ensures binds == old(binds) + [port]
      ensures ok <==> !plan(attempts - 1).BindFails?
      ensures !ok ==> code == plan(attempts - 1).code
      ensures ok ==> bound == old(bound)[s := port]
    {
      binds := binds + [port];
      match plan(attempts - 1)
      case BindFails(c) => ok, code := false, c;
      case _ => ok, code, bound := true, 0, bound[s := port];
    }

    method Listen(s: nat) returns (ok: bool, code: int)
      requires s in sockets && attempts > 0
      ensures ok <==> !plan(attempts - 1).ListenFails?
      ensures !ok ==> code == plan(attempts - 1).code
    {
      match plan(attempts - 1)
      case ListenFails(c) => ok, code := false, c;
      case _ => ok, code := true, 0;
    }

    method CloseSocket(s: nat)
      requires s in sockets && Valid()
      modifies this`sockets
      ensures sockets == old(sockets) - {s} && Valid()
    {
      sockets := sockets - {s};
    }

    method GetSockName(s: nat) returns (port: Option<Port>)
      requires s in sockets && s in bound
      ensures port == if !tellsName then None else if bound[s] == 0 then Some(pick) else Some(bound[s])
    {
      port := if !tellsName then None else if bound[s] == 0 then Some(pick) else Some(bound[s]);
    }
  }

  // -------------------------------------------------------------- the search

  predicate IsConflict(a: Attempt) {
    a.BindFails? && a.code == ADDRESS_IN_USE
  }

  /** What is asked for, unless that is nothing or zero: then sixteen. */
  function ResolveMaxPortAttempts(requested: Option<Port>): (n: Port)
    ensures n > 0 && (requested.Some? && requested.value > 0 ==> n == requested.value)
    ensures requested == None || requested == Some(0) ==> n == 16
  {
    match requested
    case Some(n) => if n == 0 then DEFAULT_MAX_ATTEMPTS else n
    case None => DEFAULT_MAX_ATTEMPTS
  }

  /** How many ports there are to try. */
  function Limit(port: Port, maxAttempts: Port): (n: nat)
    requires maxAttempts > 0
    ensures 0 < n <= maxAttempts as nat && port as nat + n <= PORT_COUNT
  {
    if port as nat + maxAttempts as nat <= PORT_COUNT then maxAttempts as nat else PORT_COUNT - port as nat
  }

  lemma LimitIs(port: Port, maxAttempts: Port)
    requires maxAttempts > 0
    ensures Limit(port, maxAttempts) == if port as nat + maxAttempts as nat <= PORT_COUNT then maxAttempts as nat
            else PORT_COUNT - port as nat
  {
  }

  /** The first attempt from `k` on that does not meet a conflict, or the limit. */
  function FirstDecided(plan: nat -> Attempt, k: nat, limit: nat): (j: nat)
    requires k <= limit
    ensures k <= j <= limit
    ensures forall i :: k <= i < j ==> IsConflict(plan(i))
    ensures j < limit ==> !IsConflict(plan(j))
    decreases limit - k
  {
    if k < limit && IsConflict(plan(k)) then FirstDecided(plan, k + 1, limit) else k
  }

  /** `n` ports from `port` on, one after the other. */
  function Ports(port: Port, n: nat): (ports: seq<Port>)
    requires port as nat + n <= PORT_COUNT
    ensures |ports| == n && forall i :: 0 <= i < n ==> ports[i] as int == port as int + i
  {
    if n == 0 then [] else Ports(port, n - 1) + [(port as nat + n - 1) as Port]
  }

  datatype StartError =
    | AlreadyRunning
    | StartupFailed
    | InvalidHost
    | SocketFailed(code: int)
    | BindFailed(port: Port, code: int)
    | ListenFailed(port: Port, code: int)
    | NoFreePort(port: Port, attempts: Port)

  datatype Report = Report(
    initialPort: Port, lastAttemptedPort: Port, boundPort: Port, attemptCount: Port, conflictCount: Port,
    fallbackUsed: bool, exhaustedConflicts: bool, lastErrorCode: int)

  function NoReport(port: Port): Report {
    Report(port, 0, 0, 0, 0, false, false, 0)
  }

  /** Why an attempt on a port ends the search without a socket. */
  function FailureOf(outcome: Attempt, port: Port): StartError
    requires !outcome.Listens?
  {
    match outcome
    case NoSocket(code) => SocketFailed(code)
    case BindFails(code) => BindFailed(port, code)
    case ListenFails(code) => ListenFailed(port, code)
  }

  /** What the search for a port comes to: the error if any, the report, and the ports asked for. */
  datatype Search = Search(error: Option<StartError>, report: Report, asked: seq<Port>)

  /** The search from `port` on when attempt number `first` and those behind it go as planned. */
  function SearchFrom(port: Port, maxAttempts: Port, plan: nat -> Attempt, first: nat, tellsName: bool,
      pick: Port): Search
    requires maxAttempts > 0
  {
    var limit := Limit(port, maxAttempts);
    var k := FirstDecided(plan, first, first + limit) - first;
    if k == limit then
      Search(Some(NoFreePort(port, limit as Port)),
             Report(port, (port as nat + limit - 1) as Port, 0, limit as Port, limit as Port, false, true,
               ADDRESS_IN_USE),
             Ports(port, limit))
    else Decided(port, k, plan(first + k), tellsName, pick)
  }

  /** The search when the `k` attempts before met conflicts and this one did not. */
  function Decided(port: Port, k: nat, outcome: Attempt, tellsName: bool, pick: Port): Search
    requires port as nat + k < PORT_COUNT && k + 1 < PORT_COUNT
  {
    var here, attempts, conflicts := (port as nat + k) as Port, (k + 1) as Port, k as Port;
    if outcome.Listens? then
      Search(None,
             Report(port, here, if here == 0 && tellsName then pick else here, attempts, conflicts,
                    port != 0 && k > 0, false,
                    if k > 0 then ADDRESS_IN_USE else 0),
             Ports(port, k + 1))
    else
      Search(Some(FailureOf(outcome, here)), Report(port, here, 0, attempts, conflicts, false, false, outcome.code),
             if outcome.NoSocket? then Ports(port, k) else Ports(port, k + 1))
  }

  /** What the attempt `j` ports on means for the whole search, when all before it met conflicts. */
  lemma AttemptDecides(port: Port, maxAttempts: Port, plan: nat -> Attempt, first: nat, j: nat, tellsName: bool,
      pick: Port)
    requires maxAttempts > 0 && j < Limit(port, maxAttempts)
    requires var end := first + Limit(port, maxAttempts);
             FirstDecided(plan, first, end) == FirstDecided(plan, first + j, end)
    ensures var end := first + Limit(port, maxAttempts);
            if IsConflict(plan(first + j)) then FirstDecided(plan, first, end) == FirstDecided(plan, first + j + 1, end)
            else SearchFrom(port, maxAttempts, plan, first, tellsName, pick) ==
                 Decided(port, j, plan(first + j), tellsName, pick)
    ensures Ports(port, j + 1) == Ports(port, j) + [(port as nat + j) as Port]
  {
    hide Limit, Decided;
  }

  lemma DecidedAsks(port: Port, k: nat, outcome: Attempt, tellsName: bool, pick: Port)
    requires port as nat + k < PORT_COUNT && k + 1 < PORT_COUNT
    ensures Decided(port, k, outcome, tellsName, pick).asked ==
            if outcome.NoSocket? then Ports(port, k) else Ports(port, k + 1)
  {
    hide Ports;
  }

  lemma AllConflict(port: Port, maxAttempts: Port, plan: nat -> Attempt, first: nat, tellsName: bool, pick: Port)
    requires maxAttempts > 0
    requires var end := first + Limit(port, maxAttempts); FirstDecided(plan, first, end) == FirstDecided(plan, end, end)
    ensures var limit := Limit(port, maxAttempts);
            SearchFrom(port, maxAttempts, plan, first, tellsName, pick) ==
              Search(Some(NoFreePort(port, limit as Port)),
                     Report(port, (port as nat + limit - 1) as Port, 0, limit as Port, limit as Port, false, true,
                       ADDRESS_IN_USE),
                     Ports(port, limit))
  {
    hide Limit, Ports, Decided;
  }

  lemma Asked(before: seq<Port>, ports: seq<Port>, next: Port)
    ensures before + ports + [next] == before + (ports + [next]) && before + ports + [] == before + ports
  {
  }

  /** One attempt: a listening socket on `port`, or nothing kept. */
  method TryPort(os: Winsock, port: Port) returns (outcome: Attempt, s: Option<nat>)
    requires os.Valid()
    modifies os
    ensures os.Valid() && os.attempts == old(os.attempts) + 1 && os.startups == old(os.startups)
    ensures outcome == os.plan(old(os.attempts)) && (outcome.Listens? <==> s.Some?)
    ensures s.Some? ==> s.value !in old(os.sockets) && s.value in os.bound && os.bound[s.value] == port
    ensures os.sockets == old(os.sockets) + if s.Some? then {s.value} else {}
    ensures os.binds == old(os.binds) + if outcome.NoSocket? then [] else [port]
  {
    var code;
    s, code := os.Socket();
    if s.None? {
      return NoSocket(code), None;
    }
    var ok;
    ok, code := os.Bind(s.value, port);
    if !ok {
      os.CloseSocket(s.value);
      return BindFails(code), None;
    }
    ok, code := os.Listen(s.value);
    if !ok {
      os.CloseSocket(s.value);
      return ListenFails(code), None;
    }
    outcome := Listens;
  }

  class HttpServer {
    var running: bool
    var stopRequested: bool
    var listenSocket: Option<nat>
    var boundPort: Port
    var wsaInitialized: bool
    /** Whether there is a worker thread to join. */
    var joinable: bool

    constructor ()
      ensures !running && listenSocket == None && !wsaInitialized && !joinable
    {
      running, stopRequested, listenSocket, boundPort, wsaInitialized, joinable := false, false, None, 0, false, false;
    }

    /** The server holds nothing of the library's. */
    ghost predicate Idle()
      reads this
    {
      !running && listenSocket == None && !wsaInitialized && !joinable
    }

    /** What the server believes it holds, the library has handed out. */
    ghost predicate Holds(os: Winsock)
      reads this, os
    {
      os.Valid() && (listenSocket.Some? ==> listenSocket.value in os.sockets) && (wsaInitialized ==> os.startups > 0) &&
      (wsaInitialized ==> running || listenSocket.Some?)
    }

    /** Stopping gives back what is held, once; on a stopped server it does nothing. */
    method Stop(os: Winsock)
      requires Holds(os)
      modifies this, os`sockets, os`startups
      ensures Idle() && os.Valid()
      ensures stopRequested == (old(stopRequested) || old(running) || old(listenSocket).Some?)
      ensures os.sockets == if old(listenSocket).Some? then old(os.sockets) - {old(listenSocket).value}
              else old(os.sockets)
      ensures os.startups == if old(wsaInitialized) then old(os.startups) - 1 else old(os.startups)
    {
      if !running && listenSocket.None? {
        joinable := false;
        return;
      }
      stopRequested := true;
      if listenSocket.Some? {
        os.CloseSocket(listenSocket.value);
        listenSocket := None;
      }
      joinable := false;
      running := false;
      if wsaInitialized {
        os.Cleanup();
        wsaInitialized := false;
      }
    }

    /** Everything taken is given back. */
    method FailStart(os: Winsock)
      requires os.Valid() && wsaInitialized && os.startups > 0
      requires listenSocket.Some? ==> listenSocket.value in os.sockets
      modifies this, os`startups, os`sockets
      ensures listenSocket == None && boundPort == 0 && !wsaInitialized && running == old(running) &&
              joinable == old(joinable) && os.Valid()
      ensures stopRequested == old(stopRequested)
      ensures os.sockets == if old(listenSocket).Some? then old(os.sockets) - {old(listenSocket).value}
              else old(os.sockets)
      ensures os.startups == old(os.startups) - 1
    {
      if listenSocket.Some? {
        os.CloseSocket(listenSocket.value);
        listenSocket := None;
      }
      boundPort := 0;
      if wsaInitialized {
        os.Cleanup();
        wsaInitialized := false;
      }
    }

    method Start(os: Winsock, port: Port, hostIsValid: bool, requested: Option<Port>)
        returns (error: Option<StartError>, report: Report)
      requires os.Valid()
      modifies this, os
      ensures os.Valid()
      ensures old(running) ==>
                error == Some(AlreadyRunning) && report == NoReport(port) && listenSocket == None && running &&
                os.sockets == old(os.sockets) && os.startups == old(os.startups)
      ensures !old(running) && !os.startupWorks ==> error == Some(StartupFailed) && report == NoReport(port)
      ensures !old(running) && os.startupWorks && !hostIsValid ==>
              error == Some(InvalidHost) && report == NoReport(port)
      ensures !old(running) && os.startupWorks && hostIsValid ==>
                var maxAttempts := ResolveMaxPortAttempts(requested);
                var search := SearchFrom(port, maxAttempts, os.plan, old(os.attempts), os.tellsName, os.pick);
                error == search.error && report == search.report && os.binds == old(os.binds) + search.asked
      ensures error == None ==>
                running && !stopRequested && wsaInitialized && joinable && boundPort == report.boundPort &&
                listenSocket.Some? && listenSocket.value !in old(os.sockets) &&
                os.sockets == old(os.sockets) + {listenSocket.value} && os.startups == old(os.startups) + 1
      ensures error.Some? && !old(running) ==>
                !running && (old(wsaInitialized) || !wsaInitialized) && joinable == old(joinable) &&
                  stopRequested == old(stopRequested) && listenSocket == None && boundPort == 0 &&
                  os.sockets == old(os.sockets) && os.startups == old(os.startups)
    {
      listenSocket, boundPort := None, 0;
      if running {
        return Some(AlreadyRunning), NoReport(port);
      }
      var started := os.Startup();
      if !started {
        return Some(StartupFailed), NoReport(port);
      }
      wsaInitialized := true;
      if !hostIsValid {
        FailStart(os);
        return Some(InvalidHost), NoReport(port);
      }
      error, report := FindPort(os, port, ResolveMaxPortAttempts(requested));
      if error.Some? {
        FailStart(os);
        return;
      }
      running, stopRequested, joinable := true, false, true;
    }

    /** A start that worked and its stop leave the library as it was. */
    method StartAndStop(os: Winsock, port: Port, hostIsValid: bool, requested: Option<Port>)
        returns (error: Option<StartError>)
      requires os.Valid() && Idle()
      modifies this, os
      ensures os.Valid() && Idle() && os.sockets == old(os.sockets) && os.startups == old(os.startups)
    {
      var report;
      error, report := Start(os, port, hostIsValid, requested);
      if error.None? {
        Stop(os);
      }
    }

    /** The end of the search at an attempt that met no conflict. */
    method Settle(os: Winsock, port: Port, lastAttemptedPort: Port, attemptCount: Port, conflictCount: Port,
        outcome: Attempt, s: Option<nat>, lastErrorCode: int)
        returns (error: Option<StartError>, report: Report)
      requires lastAttemptedPort as int == port as int + conflictCount as int
      requires attemptCount as int == conflictCount as int + 1
      requires lastErrorCode == if conflictCount > 0 then ADDRESS_IN_USE else 0
      requires outcome.Listens? <==> s.Some?
      requires s.Some? ==> s.value in os.sockets && s.value in os.bound && os.bound[s.value] == lastAttemptedPort
      modifies `listenSocket, `boundPort
      ensures var search := Decided(port, conflictCount as nat, outcome, os.tellsName, os.pick);
              error == search.error && report == search.report
      ensures error == None <==> s.Some?
      ensures if s.Some? then listenSocket == s && boundPort == report.boundPort
              else listenSocket == old(listenSocket) && boundPort == old(boundPort)
    {
      hide Ports;
      if outcome.Listens? {
        listenSocket := s;
        var name := os.GetSockName(s.value);
        boundPort := if name.Some? then name.value else lastAttemptedPort;
        var fallbackUsed := port != 0 && boundPort != port;
        error := None;
        report := Report(port, lastAttemptedPort, boundPort, attemptCount, conflictCount, fallbackUsed, false,
          lastErrorCode);
        return;
      }
      error := Some(FailureOf(outcome, lastAttemptedPort));
      report := Report(port, lastAttemptedPort, 0, attemptCount, conflictCount, false, false, outcome.code);
    }

    /** The loop over the ports. */
    method FindPort(os: Winsock, port: Port, maxAttempts: Port) returns (error: Option<StartError>, report: Report)
      requires os.Valid() && maxAttempts > 0 && listenSocket == None && boundPort == 0
      modifies `listenSocket, `boundPort, os
      ensures os.Valid() && os.startups == old(os.startups)
      ensures var search := SearchFrom(port, maxAttempts, os.plan, old(os.attempts), os.tellsName, os.pick);
              error == search.error && report == search.report && os.binds == old(os.binds) + search.asked
      ensures error == None ==>
                boundPort == report.boundPort && listenSocket.Some? && listenSocket.value !in old(os.sockets) &&
                os.sockets == old(os.sockets) + {listenSocket.value}
      ensures error.Some? ==> listenSocket == None && os.sockets == old(os.sockets)
    {
      hide SearchFrom, FirstDecided, Limit, Ports, Decided, FailureOf;
      var attemptCount: Port, conflictCount: Port, lastAttemptedPort: Port, lastErrorCode := 0, 0, 0, 0;
      ghost var first, limit := os.attempts, Limit(port, maxAttempts);
      var offset: Port := 0;
      while offset < maxAttempts
        invariant offset as nat <= limit && attemptCount == conflictCount == offset &&
                  os.attempts == first + offset as nat
        invariant os.Valid() && os.sockets == old(os.sockets) && os.startups == old(os.startups)
        invariant listenSocket == None && boundPort == 0
        invariant FirstDecided(os.plan, first, first + limit) == FirstDecided(os.plan, os.attempts, first + limit)
        invariant offset > 0 ==> lastAttemptedPort as int == port as int + offset as int - 1
        invariant offset > 0 ==> lastErrorCode == ADDRESS_IN_USE
        invariant offset == 0 ==> lastErrorCode == 0
        invariant os.binds == old(os.binds) + Ports(port, offset as nat)
      {
        var candidate := port as int + offset as int;
        if candidate >= PORT_COUNT {
          break;
        }
        LimitIs(port, maxAttempts);
        AttemptDecides(port, maxAttempts, os.plan, first, offset as nat, os.tellsName, os.pick);
        lastAttemptedPort := candidate as Port;
        attemptCount := attemptCount + 1;
        var outcome, s := TryPort(os, lastAttemptedPort);
        Asked(old(os.binds), Ports(port, offset as nat), lastAttemptedPort);
        if outcome.BindFails? && outcome.code == ADDRESS_IN_USE {
          conflictCount := conflictCount + 1;
          lastErrorCode := outcome.code;
          offset := offset + 1;
          continue;
        }
        error, report := Settle(os, port, lastAttemptedPort, attemptCount, conflictCount, outcome, s, lastErrorCode);
        DecidedAsks(port, offset as nat, outcome, os.tellsName, os.pick);
        return;
      }
      LimitIs(port, maxAttempts);
      AllConflict(port, maxAttempts, os.plan, first, os.tellsName, os.pick);
      var exhausted := conflictCount > 0 && conflictCount == attemptCount;
      error := Some(NoFreePort(port, attemptCount));
      report := Report(port, lastAttemptedPort, 0, attemptCount, conflictCount, false, exhausted, lastErrorCode);
    }
  }

  // --------------------------------------------------------------- theorems

  /** The `n` attempts from `first` on all meet a port in use: binding fails with WSAEADDRINUSE. */
  ghost predicate AllBusy(plan: nat -> Attempt, first: nat, n: nat) {
    forall i :: first <= i < first + n ==> plan(i) == BindFails(10048)
  }

  lemma {:induction false} FirstDecidedIs(plan: nat -> Attempt, k: nat, end: nat, j: nat)
    requires k <= j <= end && (forall i :: k <= i < j ==> IsConflict(plan(i))) && (j < end ==> !IsConflict(plan(j)))
    ensures FirstDecided(plan, k, end) == j
    decreases j - k
  {
    if k < j {
      FirstDecidedIs(plan, k + 1, end, j);
    }
  }

  /** After `k` busy ports and one that is free, the server listens on that one: the port is the
      start port plus `k`, without wrapping, or any the library picks for port 0, and the counts say so. */
  lemma FreePortIsFound(port: Port, maxAttempts: Port, plan: nat -> Attempt, first: nat, tellsName: bool, pick: Port,
      k: nat)
    requires maxAttempts > 0 && k < maxAttempts as nat && port as nat + k < PORT_COUNT
    requires AllBusy(plan, first, k) && plan(first + k).Listens?
    ensures var s := SearchFrom(port, maxAttempts, plan, first, tellsName, pick); var r := s.report;
            s.error == None && r.initialPort == port && r.lastAttemptedPort as nat == port as nat + k &&
            r.boundPort == (if r.lastAttemptedPort == 0 && tellsName then pick else r.lastAttemptedPort) &&
            r.attemptCount as nat == k + 1 && r.conflictCount as nat == k &&
            (r.fallbackUsed <==> port != 0 && k > 0) && !r.exhaustedConflicts &&
            r.lastErrorCode == (if k > 0 then 10048 else 0) && AsksFor(s.asked, port, k + 1)
  {
    hide Ports;
    FirstDecidedIs(plan, first, first + Limit(port, maxAttempts), first + k);
  }

  /** The ports asked for are the `n` from the start port on, in order. */
  ghost predicate AsksFor(asked: seq<Port>, port: Port, n: nat) {
    |asked| == n && forall i :: 0 <= i < n ==> asked[i] as nat == port as nat + i
  }

  /** The search is exhausted exactly when every port within reach is busy, after as many attempts
      as are allowed or as there are ports. */
  lemma ExhaustedExactlyWhenAllBusy(port: Port, maxAttempts: Port, plan: nat -> Attempt, first: nat, tellsName: bool,
      pick: Port)
    requires maxAttempts > 0
    ensures var s := SearchFrom(port, maxAttempts, plan, first, tellsName, pick); var r := s.report;
            var n := if port as nat + maxAttempts as nat <= PORT_COUNT then maxAttempts as nat
              else PORT_COUNT - port as nat;
            (r.exhaustedConflicts <==> AllBusy(plan, first, n)) &&
            (r.exhaustedConflicts <==> s.error.Some? && s.error.value.NoFreePort?) &&
            (r.exhaustedConflicts ==>
              s.error.value.port == port && s.error.value.attempts as nat == n && AsksFor(s.asked, port, n) &&
              r.attemptCount as nat == r.conflictCount as nat == n && r.boundPort == 0 && !r.fallbackUsed &&
              r.lastAttemptedPort as nat == port as nat + n - 1 && r.lastErrorCode == 10048)
  {
    hide Ports;
    LimitIs(port, maxAttempts);
  }

  /** Any other failure stops the search at once, with the step that failed and its code, and is not
      called exhaustion. Where no socket was had the last port was not asked for. */
  lemma OtherFailuresStop(port: Port, maxAttempts: Port, plan: nat -> Attempt, first: nat, tellsName: bool,
      pick: Port, k: nat)
    requires maxAttempts > 0 && k < maxAttempts as nat && port as nat + k < PORT_COUNT
    requires AllBusy(plan, first, k) && !plan(first + k).Listens? && plan(first + k) != BindFails(10048)
    ensures var s := SearchFrom(port, maxAttempts, plan, first, tellsName, pick); var r := s.report;
            var o, here := plan(first + k), (port as nat + k) as Port;
            (o.NoSocket? ==> s.error == Some(SocketFailed(o.code)) && AsksFor(s.asked, port, k)) &&
            (o.BindFails? ==> s.error == Some(BindFailed(here, o.code)) && AsksFor(s.asked, port, k + 1)) &&
            (o.ListenFails? ==> s.error == Some(ListenFailed(here, o.code)) && AsksFor(s.asked, port, k + 1)) &&
            r.attemptCount as nat == k + 1 && r.conflictCount as nat == k && !r.exhaustedConflicts &&
            r.boundPort == 0 && !r.fallbackUsed && r.lastAttemptedPort == here && r.lastErrorCode == o.code
  {
    hide Ports;
    FirstDecidedIs(plan, first, first + Limit(port, maxAttempts), first + k);
  }
}

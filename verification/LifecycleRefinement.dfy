/** The server object and the server of the lifecycle are one: starting and stopping the object has
    the effect of the steps that stand for it. */
module LifecycleRefinement {
  import opened Bytes
  import HttpStart
  import opened Lifecycle

  /** The lifecycle's view of a server object, with its worker where it is. */
  ghost function ServerOf(h: HttpStart.HttpServer, worker: WorkerPc): Server
    reads h
  {
    Server(h.running, h.stopRequested, h.listenSocket, h.wsaInitialized, if h.joinable then Some(worker) else None)
  }

  /** The object is server `i` of the state, and the library's account is the state's. */
  ghost predicate Agrees(s: State, i: nat, h: HttpStart.HttpServer, os: HttpStart.Winsock, worker: WorkerPc)
    reads h, os
  {
    i < |s.servers| && s.servers[i] == ServerOf(h, worker) && s.open == os.sockets && s.startups == os.startups &&
      !s.fault
  }

  ghost function Steps(n: nat): seq<Action> {
    if n == 0 then [] else [HostStep(false)] + Steps(n - 1)
  }

  lemma OneStep(s: State, n: nat)
    requires n > 0 && Next(s, HostStep(false)).Some?
    ensures Run(s, Steps(n)) == Run(Next(s, HostStep(false)).value, Steps(n - 1))
  {
    hide Next;
    assert Steps(n)[0] == HostStep(false) && Steps(n)[1..] == Steps(n - 1);
  }

  lemma NoStep(s: State)
    ensures Run(s, Steps(0)) == Some(s)
  {
  }

  /** How many steps a stop takes once the worker is done. */
  ghost function StopLength(server: Server): nat {
    if server.running || server.listen.Some? then 4 else if server.worker.Some? then 2 else 1
  }

  /** What the host's steps do to a server whose worker is done, from the check to the end. */
  lemma StopSteps(s: State, i: nat, why: Reason)
    requires i < |s.servers| && s.mutex == ByHost(Stopping(i, Check, why)) && !s.fault
    requires var server := s.servers[i];
             (server.worker.Some? ==> server.worker.value.Done?) &&
               (server.listen.Some? ==> server.listen.value in s.open) &&
             (server.wsa ==> s.startups > 0 && (server.running || server.listen.Some?))
    ensures var server := s.servers[i]; var end := Run(s, Steps(StopLength(server)));
            end.Some? && i < |end.value.servers| && !end.value.fault &&
            end.value.servers[i] ==
              Server(false, server.stopRequested || server.running || server.listen.Some?, None, false, None) &&
            end.value.open == (if server.listen.Some? then s.open - {server.listen.value} else s.open) &&
            end.value.startups == (if server.wsa then s.startups - 1 else s.startups) &&
            !(end.value.mutex.ByHost? && end.value.mutex.pc.Stopping?)
  {
    hide Run, Steps;
    var n := StopLength(s.servers[i]);
    OneStep(s, n);
    var s1 := Next(s, HostStep(false)).value;
    if n == 4 {
      CloseToFinish(s1, i, why);
    } else if n == 2 {
      OneStep(s1, 1);
      NoStep(Next(s1, HostStep(false)).value);
    } else {
      NoStep(s1);
    }
  }

  /** The steps of a stop behind its check. */
  lemma CloseToFinish(s: State, i: nat, why: Reason)
    requires i < |s.servers| && s.mutex == ByHost(Stopping(i, CloseListener, why)) && !s.fault
    requires var server := s.servers[i];
             (server.worker.Some? ==> server.worker.value.Done?) &&
               (server.listen.Some? ==> server.listen.value in s.open) &&
             (server.wsa ==> s.startups > 0)
    ensures var server := s.servers[i]; var end := Run(s, Steps(3));
            end.Some? && i < |end.value.servers| && !end.value.fault &&
            end.value.servers[i] == Server(false, server.stopRequested, None, false, None) &&
            end.value.open == (if server.listen.Some? then s.open - {server.listen.value} else s.open) &&
            end.value.startups == (if server.wsa then s.startups - 1 else s.startups) &&
            !(end.value.mutex.ByHost? && end.value.mutex.pc.Stopping?)
  {
    hide Run, Steps;
    OneStep(s, 3);
    var s2 := Next(s, HostStep(false)).value;
    OneStep(s2, 2);
    var s3 := Next(s2, HostStep(false)).value;
    OneStep(s3, 1);
    NoStep(Next(s3, HostStep(false)).value);
  }

  /** Stopping the object is running the host's steps on its view. */
  method StopIsItsSteps(h: HttpStart.HttpServer, os: HttpStart.Winsock, ghost s: State, ghost i: nat, ghost why: Reason)
      returns (ghost t: State)
    requires h.Holds(os) && Agrees(s, i, h, os, Done) && s.mutex == ByHost(Stopping(i, Check, why))
    modifies h, os
    ensures Run(s, Steps(StopLength(s.servers[i]))) == Some(t) && Agrees(t, i, h, os, Done)
    ensures !(t.mutex.ByHost? && t.mutex.pc.Stopping?)
  {
    StopSteps(s, i, why);
    t := Run(s, Steps(StopLength(s.servers[i]))).value;
    h.Stop(os);
  }

  /** Starting the object is one step on its view, up to the number of the socket it ends with, if
      it works, and the way to a stop that does nothing, if it does not. */
  method StartIsAStep(h: HttpStart.HttpServer, os: HttpStart.Winsock, port: HttpStart.Port, hostIsValid: bool,
                      requested: Option<HttpStart.Port>, ghost s: State, ghost i: nat)
      returns (error: Option<HttpStart.StartError>, ghost t: State)
    requires os.Valid() && h.Idle() && !h.stopRequested && Agrees(s, i, h, os, Done) && s.mutex == ByHost(Starting(i))
    modifies h, os
    ensures error == None ==>
              h.listenSocket.Some? && h.listenSocket.value !in old(os.sockets) && t.mutex == Free &&
              Next(s.(handedOut := h.listenSocket.value), HostStep(true)) == Some(t) && Agrees(t, i, h, os, AtLoop)
    ensures error.Some? ==> Run(s, Steps(2)) == Some(t) && t.mutex == Free && Agrees(t, i, h, os, Done) && h.Idle()
  {
    var report;
    error, report := h.Start(os, port, hostIsValid, requested);
    if error.None? {
      t := Next(s.(handedOut := h.listenSocket.value), HostStep(true)).value;
    } else {
      OneStep(s, 2);
      var s1 := Next(s, HostStep(false)).value;
      OneStep(s1, 1);
      t := Next(s1, HostStep(false)).value;
      NoStep(t);
    }
  }
}

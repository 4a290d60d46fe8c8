/** The extension around the server: what it does with a request and what it logs about it. */
module Extension {
  import opened Bytes
  import opened Decimals
  import opened Http
  import opened JsonRpc
  import opened IoEcho
  import opened LogLines

  newtype UInt64 = x: int | 0 <= x < 0x1_0000_0000_0000_0000
  const ID_COUNT: nat := 0x1_0000_0000_0000_0000

  // -------------------------------------------------------------- trace ids

  datatype TraceState = TraceState(traceId: string, rpcMethod: string, rpcId: string, toolName: string)

  function LocalTraceId(sequence: nat): string {
    "local-" + DecimalText(sequence)
  }

  function RpcTraceId(raw: string): string {
    "rpc:" + raw
  }

  /** A request without an id of its own is numbered by the extension. */
  predicate IsLocal(body: string) {
    RequestMetaOf(body).rpcId.None?
  }

  function TraceStateOf(body: string, next: nat): TraceState {
    var meta := RequestMetaOf(body);
    TraceState(match meta.rpcId case Some(raw) => RpcTraceId(raw) case None => LocalTraceId(next),
               OrEmpty(meta.rpcMethod), OrEmpty(meta.rpcId), OrEmpty(meta.toolName))
  }

  // --------------------------------------------------------------- refusals

  datatype Refusal = NotFound | ForbiddenOrigin | UnsupportedVersion | NoStream | NotAllowed | NoRouter
  {
    function Response(): HttpResponse {
      match this
      case NotFound => HttpResponse(404, JSON_CONTENT_TYPE, "{\"error\":\"Not Found\"}", true)
      case ForbiddenOrigin =>
        HttpResponse(403, JSON_CONTENT_TYPE,
                     "{\"jsonrpc\":\"2.0\",\"id\":null,\"error\":" +
                     "{\"code\":-32000,\"message\":\"Forbidden origin\"}}", true)
      case UnsupportedVersion =>
        HttpResponse(400, JSON_CONTENT_TYPE,
                     "{\"jsonrpc\":\"2.0\",\"id\":null,\"error\":" +
                     "{\"code\":-32600,\"message\":\"Unsupported MCP protocol version\"}}", true)
      case NoStream =>
        HttpResponse(405, JSON_CONTENT_TYPE, "{\"error\":\"GET stream is not implemented in this MVP\"}", true)
      case NotAllowed => HttpResponse(405, JSON_CONTENT_TYPE, "{\"error\":\"Method Not Allowed\"}", true)
      case NoRouter => HttpResponse(500, JSON_CONTENT_TYPE, "{\"error\":\"Router is not initialized\"}", true)
    }
  }

  predicate IsOriginAllowed(origin: string) {
    origin == "" || var lowered := ToLower(Trim(origin)); "http://localhost" <= lowered || "http://127.0.0.1" <= lowered
  }

  /** Why a request does not reach the router, if it does not. */
  function Refused(request: HttpRequest): Option<Refusal> {
    if request.path != "/mcp" then Some(NotFound)
    else if "origin" in request.headers && !IsOriginAllowed(request.headers["origin"]) then Some(ForbiddenOrigin)
    else if "mcp-protocol-version" in request.headers &&
            request.headers["mcp-protocol-version"] != "2025-11-25" &&
              request.headers["mcp-protocol-version"] != "2025-03-26"
    then Some(UnsupportedVersion)
    else if request.verb == "GET" then Some(NoStream)
    else if request.verb != "POST" then Some(NotAllowed)
    else None
  }

  function Wrapped(r: HttpResult): HttpResponse {
    HttpResponse(r.status, JSON_CONTENT_TYPE, r.body, r.hasBody)
  }

  // -------------------------------------------------------------- the story

  datatype Stage = RequestReceived | RouteDispatch | ToolExecuteStart | ToolExecuteEnd | ResponseSent
  {
    function Name(): string {
      match this
      case RequestReceived => "request_received"
      case RouteDispatch => "route_dispatch"
      case ToolExecuteStart => "tool_execute_start"
      case ToolExecuteEnd => "tool_execute_end"
      case ResponseSent => "response_sent"
    }
  }

  /** What happens in the course of requests: stages logged, and commands run. */
  datatype Mark = Logged(traceId: string, stage: Stage) | Ran(call: Call)

  function Runs(calls: seq<Call>): seq<Mark> {
    if calls == [] then [] else [Ran(calls[0])] + Runs(calls[1..])
  }

  /** The stages among some marks, in order. */
  ghost function StagesIn(log: seq<Mark>): seq<Mark> {
    if log == [] then []
    else StagesIn(log[..|log| - 1]) + if log[|log| - 1].Logged? then [log[|log| - 1]] else []
  }

  lemma StagesAppend(log: seq<Mark>, m: Mark)
    ensures StagesIn(log + [m]) == StagesIn(log) + if m.Logged? then [m] else []
  {
    assert (log + [m])[..|log|] == log;
  }

  lemma {:induction false} RunsAreNoStages(log: seq<Mark>, calls: seq<Call>)
    ensures StagesIn(log + Runs(calls)) == StagesIn(log)
    decreases |calls|
  {
    hide StagesIn;
    if calls == [] {
      assert log + Runs(calls) == log;
    } else {
      StagesAppend(log, Ran(calls[0]));
      RunsAreNoStages(log + [Ran(calls[0])], calls[1..]);
      assert log + Runs(calls) == log + [Ran(calls[0])] + Runs(calls[1..]);
    }
  }

  /** A line names the trace id and the stage of a mark. */
  ghost predicate Shows(line: string, m: Mark) {
    m.Logged? && exists before: string, after: string ::
      line == before + (IfAny(" trace_id=", m.traceId) + IfAny(" stage=", m.stage.Name()) + after)
  }

  /** The lines logged are single lines, one for each stage of the log, in order, naming it. */
  ghost predicate LinesTell(lines: seq<string>, stages: seq<Mark>) {
    |lines| == |stages| && forall i :: 0 <= i < |lines| ==> OneLine(lines[i]) && Shows(lines[i], stages[i])
  }

  lemma LinesAppend(lines: seq<string>, log: seq<Mark>, line: string, m: Mark)
    requires LinesTell(lines, StagesIn(log)) && OneLine(line) && m.Logged? && Shows(line, m)
    ensures LinesTell(lines + [line], StagesIn(log + [m]))
  {
    hide OneLine, Shows;
    StagesAppend(log, m);
  }

  /** Every summary names the trace id and stage of its context. */
  lemma ResponseShows(r: HttpResponse, ctx: TraceContext, m: Mark)
    requires m.Logged? && ctx.traceId == m.traceId && ctx.stage == m.stage.Name()
    ensures Shows(ResponseText(r, ctx), m)
  {
    hide IfAny, DecimalText, OutcomeContext, RpcResponseText, ResponseMetaOf, Labelled, Stage.Name;
    TraceShows(ctx, m, "mcp.response status=" + DecimalText(r.status),
      ResponseText(r, ctx)[|"mcp.response status=" + DecimalText(r.status)| + |TraceText(ctx)|..]);
  }

  lemma LifecycleShows(ctx: TraceContext, message: string, m: Mark)
    requires m.Logged? && ctx.traceId == m.traceId && ctx.stage == m.stage.Name()
    ensures Shows(LifecycleText(ctx, message), m)
  {
    hide IfAny, DecimalText, ContextText, Stage.Name;
    TraceShows(ctx, m, "mcp.stage", LifecycleText(ctx, message)[|"mcp.stage"| + |TraceText(ctx)|..]);
  }

  lemma RequestShows(request: HttpRequest, ctx: TraceContext, line: string, m: Mark)
    requires IsRequestSummary(request, ctx, line)
    requires m.Logged? && ctx.traceId == m.traceId && ctx.stage == m.stage.Name()
    ensures Shows(line, m)
  {
    hide IfAny, DecimalText, Labelled, ContextText, RpcRequestText, RequestMetaOf, IsSensitiveSummary, Stage.Name;
    var verb := Labelled("mcp.request method=", request.verb);
    TraceShows(ctx, m, verb, line[|verb| + |TraceText(ctx)|..]);
  }

  lemma TraceShows(ctx: TraceContext, m: Mark, before: string, after: string)
    requires m.Logged? && ctx.traceId == m.traceId && ctx.stage == m.stage.Name()
    ensures Shows(before + TraceText(ctx) + after, m)
  {
    hide IfAny, DecimalText, Stage.Name;
    var id, stage, duration := IfAny(" trace_id=", ctx.traceId), IfAny(" stage=", ctx.stage),
      " duration_ms=" + DecimalText(ctx.durationMs);
    assert before + (id + stage + duration) + after == before + (id + stage + (duration + after));
  }

  /** The stages between reception and answer, with the commands run in between. */
  function Middle(t: TraceState, hasRouter: bool, calls: seq<Call>): seq<Mark> {
    var tool := t.rpcMethod == "tools/call";
    [Logged(t.traceId, RouteDispatch)] + (if tool then [Logged(t.traceId, ToolExecuteStart)] else []) +
      (if hasRouter then Runs(calls) + (if tool then [Logged(t.traceId, ToolExecuteEnd)] else []) else [])
  }

  /** Everything one request leaves behind. */
  function Story(request: HttpRequest, t: TraceState, hasRouter: bool, calls: seq<Call>): seq<Mark> {
    match Refused(request)
    case Some(NotFound) => []
    case Some(_) => [Logged(t.traceId, RequestReceived)] + [Logged(t.traceId, ResponseSent)]
    case None => [Logged(t.traceId, RequestReceived)] + Middle(t, hasRouter, calls) + [Logged(t.traceId, ResponseSent)]
  }

  /** The commands a request runs, once past the refusals, on a router of some version or none. */
  function CallsPast(request: HttpRequest, version: Option<string>): seq<Call> {
    match version case Some(v) => CallsOf(PlanFor(request.body, v, true)) case None => []
  }

  function CallsFor(request: HttpRequest, version: Option<string>): seq<Call> {
    if Refused(request).Some? then [] else CallsPast(request, version)
  }

  function ResponsePast(request: HttpRequest, version: Option<string>, answer: (seq<Call>, Call) -> Execution,
      past: seq<Call>): HttpResponse {
    match version
    case Some(v) => Wrapped(Respond(PlanFor(request.body, v, true), answer, past))
    case None => NoRouter.Response()
  }

  /** The response to that request by an executor with the given answers and past calls. */
  function ResponseFor(request: HttpRequest, version: Option<string>, answer: (seq<Call>, Call) -> Execution,
      past: seq<Call>): HttpResponse {
    match Refused(request)
    case Some(r) => r.Response()
    case None => ResponsePast(request, version, answer, past)
  }

  /** What one request leaves behind. */
  function StoryOf(request: HttpRequest, version: Option<string>, next: nat): seq<Mark> {
    Story(request, TraceStateOf(request.body, next), version.Some?, CallsFor(request, version))
  }

  /** The counter after a request: local requests use a number up, modulo its width. */
  function NextId(next: nat, body: string): nat {
    if IsLocal(body) then (next + 1) % ID_COUNT else next
  }

  /** The context of a line logged after `durationMs` milliseconds. */
  function ContextAt(t: TraceState, stage: Stage, outcome: string, durationMs: nat): TraceContext {
    TraceContext(t.traceId, stage.Name(), t.rpcMethod, t.rpcId, t.toolName, outcome, durationMs)
  }

  /** A line is the right one for a stage of a request and its response. */
  ghost predicate IsLineFor(line: string, durationMs: nat, stage: Stage, request: HttpRequest, t: TraceState,
      response: HttpResponse) {
    match stage
    case RequestReceived => IsRequestSummary(request, ContextAt(t, stage, "", durationMs), line)
    case RouteDispatch =>
      line == LifecycleText(ContextAt(t, stage, "in_progress", durationMs), "dispatching JSON-RPC request")
    case ToolExecuteStart =>
      line == LifecycleText(ContextAt(t, stage, "in_progress", durationMs), "entering tool executor")
    case ToolExecuteEnd => line == ResponseText(response, ContextAt(t, stage, "", durationMs))
    case ResponseSent => line == ResponseText(response, ContextAt(t, stage, "", durationMs))
  }

  /** From the `from`-th on, each line is the right one for its stage. */
  ghost predicate AreLinesFor(lines: seq<string>, stages: seq<Mark>, from: nat, elapsed: nat -> nat,
      request: HttpRequest, t: TraceState, response: HttpResponse) {
    from <= |lines| == |stages| &&
    forall n :: from <= n < |lines| ==>
      stages[n].Logged? && IsLineFor(lines[n], elapsed(n), stages[n].stage, request, t, response)
  }

  lemma AddLine(lines: seq<string>, line: string, stages: seq<Mark>, m: Mark, from: nat, elapsed: nat -> nat,
      request: HttpRequest, t: TraceState, response: HttpResponse)
    requires AreLinesFor(lines, stages, from, elapsed, request, t, response)
    requires m.Logged? && IsLineFor(line, elapsed(|lines|), m.stage, request, t, response)
    ensures AreLinesFor(lines + [line], stages + [m], from, elapsed, request, t, response)
  {
    hide IsLineFor;
  }

  lemma NoLineYet(lines: seq<string>, log: seq<Mark>, elapsed: nat -> nat, request: HttpRequest, t: TraceState,
      response: HttpResponse)
    requires LinesTell(lines, StagesIn(log))
    ensures AreLinesFor(lines, StagesIn(log), |lines|, elapsed, request, t, response)
  {
    hide OneLine, Shows, StagesIn;
  }

  /** Lines that go on from others are the right ones if both parts are. */
  lemma LinesGoOn(first: seq<string>, all: seq<string>, s1: seq<Mark>, stages: seq<Mark>, from: nat,
      elapsed: nat -> nat, request: HttpRequest, t: TraceState, response: HttpResponse)
    requires first <= all && s1 <= stages && AreLinesFor(first, s1, from, elapsed, request, t, response)
    requires AreLinesFor(all, stages, |first|, elapsed, request, t, response)
    ensures AreLinesFor(all, stages, from, elapsed, request, t, response)
  {
    hide IsLineFor;
  }

  class ExtensionState {
    var router: JsonRpcRouter?
    var nextLocalTraceId: UInt64
    var log: seq<Mark>
    var lines: seq<string>
    /** The milliseconds shown in each line. */
    const elapsed: nat -> nat

    constructor (elapsed: nat -> nat)
      ensures router == null && nextLocalTraceId == 1 && log == [] && lines == [] && Valid()
    {
      this.elapsed := elapsed;
      router, nextLocalTraceId, log, lines := null, 1, [], [];
    }

    /** A router is only ever made for an executor, and the lines logged tell the stages. */
    ghost predicate Valid()
      reads this
    {
      (router != null ==> router.executor != null) && LinesTell(lines, StagesIn(log))
    }

    method BuildRequestTraceState(request: HttpRequest) returns (t: TraceState)
      modifies `nextLocalTraceId
      ensures t == TraceStateOf(request.body, old(nextLocalTraceId) as nat)
      ensures nextLocalTraceId as nat == NextId(old(nextLocalTraceId) as nat, request.body)
    {
      hide RequestMetaOf;
      var meta := ParseRequestIoMeta(request.body);
      t := TraceState("", OrEmpty(meta.rpcMethod), "", OrEmpty(meta.toolName));
      if meta.rpcId.Some? {
        t := t.(rpcId := meta.rpcId.value, traceId := RpcTraceId(meta.rpcId.value));
      }
      if t.traceId == "" {
        var sequence := nextLocalTraceId;
        nextLocalTraceId := ((sequence as int + 1) % ID_COUNT) as UInt64;
        t := t.(traceId := LocalTraceId(sequence as nat));
      }
    }

    method LogMessage(traceId: string, stage: Stage, line: string)
      requires Valid() && OneLine(line) && Shows(line, Logged(traceId, stage))
      modifies `log, `lines
      ensures Valid() && log == old(log) + [Logged(traceId, stage)] && lines == old(lines) + [line]
      ensures StagesIn(log) == StagesIn(old(log)) + [Logged(traceId, stage)]
    {
      hide LinesTell, StagesIn;
      LinesAppend(lines, log, line, Logged(traceId, stage));
      StagesAppend(log, Logged(traceId, stage));
      log := log + [Logged(traceId, stage)];
      lines := lines + [line];
    }

    method LogRequestEcho(request: HttpRequest, t: TraceState) returns (line: string)
      requires Valid()
      modifies `log, `lines
      ensures Valid() && log == old(log) + [Logged(t.traceId, RequestReceived)] && lines == old(lines) + [line]
      ensures StagesIn(log) == StagesIn(old(log)) + [Logged(t.traceId, RequestReceived)]
      ensures IsRequestSummary(request, ContextAt(t, RequestReceived, "", elapsed(|old(lines)|)), line)
    {
      hide IsRequestSummary, OneLine, Shows, LinesTell, StagesIn;
      var context := ContextAt(t, RequestReceived, "", elapsed(|lines|));
      line := BuildRequestIoSummary(request, context);
      RequestSummaryIsOneLine(request, context, line);
      RequestShows(request, context, line, Logged(t.traceId, RequestReceived));
      LogMessage(t.traceId, RequestReceived, line);
    }

    method LogStageEcho(t: TraceState, stage: Stage, outcome: string, message: string)
      requires Valid()
      modifies `log, `lines
      ensures Valid() && log == old(log) + [Logged(t.traceId, stage)]
      ensures StagesIn(log) == StagesIn(old(log)) + [Logged(t.traceId, stage)]
      ensures lines == old(lines) + [LifecycleText(ContextAt(t, stage, outcome, elapsed(|old(lines)|)), message)]
    {
      hide LifecycleText, OneLine, Shows, LinesTell, StagesIn;
      var context := ContextAt(t, stage, outcome, elapsed(|lines|));
      var line := BuildLifecycleIoSummary(context, message);
      LifecycleSummaryIsOneLine(context, message);
      LifecycleShows(context, message, Logged(t.traceId, stage));
      LogMessage(t.traceId, stage, line);
    }

    method LogResponseEcho(response: HttpResponse, t: TraceState, stage: Stage)
      requires Valid()
      modifies `log, `lines
      ensures Valid() && log == old(log) + [Logged(t.traceId, stage)]
      ensures StagesIn(log) == StagesIn(old(log)) + [Logged(t.traceId, stage)]
      ensures lines == old(lines) + [ResponseText(response, ContextAt(t, stage, "", elapsed(|old(lines)|)))]
    {
      hide ResponseText, OneLine, Shows, LinesTell, StagesIn;
      var context := ContextAt(t, stage, "", elapsed(|lines|));
      var line := BuildResponseIoSummary(response, context);
      ResponseSummaryIsOneLine(response, context);
      ResponseShows(response, context, Logged(t.traceId, stage));
      LogMessage(t.traceId, stage, line);
    }

    method FinishMcpRequest(refusal: Refusal, t: TraceState) returns (response: HttpResponse)
      requires Valid()
      modifies `log, `lines
      ensures Valid() && response == refusal.Response() && log == old(log) + [Logged(t.traceId, ResponseSent)]
      ensures StagesIn(log) == StagesIn(old(log)) + [Logged(t.traceId, ResponseSent)]
      ensures lines == old(lines) + [ResponseText(response, ContextAt(t, ResponseSent, "", elapsed(|old(lines)|)))]
    {
      hide LinesTell, StagesIn, ResponseText, ContextAt, Refusal.Response;
      response := refusal.Response();
      LogResponseEcho(response, t, ResponseSent);
    }

    ghost function Version(): Option<string>
      reads this`router
    {
      if router == null then None else Some(router.version)
    }

    ghost function Touches(): set<object>
      reads this`router
    {
      if router == null || router.executor == null then {} else {router.executor}
    }

    /** The commands run so far on the present router's executor. */
    ghost function Calls(): seq<Call>
      reads this`router, Touches()
    {
      if router == null || router.executor == null then [] else router.executor.calls
    }

    /** The answers of that executor. */
    ghost function Answer(): (seq<Call>, Call) -> Execution
      reads this`router
    {
      if router == null || router.executor == null then (past: seq<Call>, call: Call) => Execution(false, "", "")
        else router.executor.answer
    }

    method HandleRequest(request: HttpRequest) returns (response: HttpResponse)
      requires Valid()
      modifies `nextLocalTraceId, `log, `lines, Touches()
      ensures Valid()
      ensures nextLocalTraceId as nat == NextId(old(nextLocalTraceId) as nat, request.body)
      ensures log == old(log) + StoryOf(request, Version(), old(nextLocalTraceId) as nat)
      ensures Calls() == old(Calls()) + CallsFor(request, Version())
      ensures response == ResponseFor(request, Version(), Answer(), old(Calls()))
      ensures old(lines) <= lines
      ensures AreLinesFor(lines, StagesIn(log), |old(lines)|, elapsed, request,
                TraceStateOf(request.body, old(nextLocalTraceId) as nat), response)
    {
      hide TraceStateOf, PlanFor, Respond, IsLocal, Middle, Refusal.Response, LinesTell, StagesIn, ResponseText,
           IsRequestSummary, ContextAt, AreLinesFor;
      var t := BuildRequestTraceState(request);
      ghost var from, before := lines, log;
      if request.path != "/mcp" {
        response := NotFound.Response();
        NoLineYet(from, before, elapsed, request, t, response);
        return;
      }
      var line := LogRequestEcho(request, t);
      ghost var lines1, stages1 := lines, StagesIn(log);
      var refusal := Refused(request);
      if refusal.Some? {
        response := FinishMcpRequest(refusal.value, t);
        NoLineYet(from, before, elapsed, request, t, response);
        AddLine(from, line, StagesIn(before), Logged(t.traceId, RequestReceived), |from|, elapsed, request, t,
          response);
        AddLine(lines1, lines[|lines1|], stages1, Logged(t.traceId, ResponseSent), |from|, elapsed, request, t,
          response);
        return;
      }
      response := Dispatch(request, t);
      NoLineYet(from, before, elapsed, request, t, response);
      AddLine(from, line, StagesIn(before), Logged(t.traceId, RequestReceived), |from|, elapsed, request, t, response);
      LinesGoOn(lines1, lines, stages1, StagesIn(log), |from|, elapsed, request, t, response);
    }

    /** The part of `HandleRequest` behind the refusals. */
    method Dispatch(request: HttpRequest, t: TraceState) returns (response: HttpResponse)
      requires Valid()
      modifies `log, `lines, Touches()
      ensures Valid()
      ensures log == old(log) + (Middle(t, Version().Some?, CallsPast(request, Version())) +
              [Logged(t.traceId, ResponseSent)])
      ensures Calls() == old(Calls()) + CallsPast(request, Version())
      ensures response == ResponsePast(request, Version(), Answer(), old(Calls()))
      ensures old(lines) <= lines && StagesIn(old(log)) <= StagesIn(log)
      ensures AreLinesFor(lines, StagesIn(log), |old(lines)|, elapsed, request, t, response)
    {
      hide PlanFor, Respond, CallsOf, Refusal.Response, LinesTell, StagesIn, ResponseText, LifecycleText, ContextAt,
           Runs, AreLinesFor, IsLineFor;
      ghost var from := |lines|;
      BeforeTool(request, t);
      ghost var lines1, stages1 := lines, StagesIn(log);
      if router == null {
        response := FinishMcpRequest(NoRouter, t);
        AnswerLine(lines[|lines1|], ResponseSent, elapsed(|lines1|), request, t, response);
        AddLine(lines1, lines[|lines1|], stages1, Logged(t.traceId, ResponseSent), from, elapsed, request, t, response);
        return;
      }
      var past := router.executor.calls;
      var result := router.HandleJsonRpcPost(request.body);
      assert router.executor.calls[|past|..] == CallsOf(PlanFor(request.body, router.version, true));
      RunsAreNoStages(log, router.executor.calls[|past|..]);
      log := log + Runs(router.executor.calls[|past|..]);
      response := Wrapped(result);
      if t.rpcMethod == "tools/call" {
        LogResponseEcho(response, t, ToolExecuteEnd);
        AnswerLine(lines[|lines1|], ToolExecuteEnd, elapsed(|lines1|), request, t, response);
        AddLine(lines1, lines[|lines1|], stages1, Logged(t.traceId, ToolExecuteEnd), from, elapsed, request, t,
          response);
      }
      ghost var lines2, stages2 := lines, StagesIn(log);
      LogResponseEcho(response, t, ResponseSent);
      AnswerLine(lines[|lines2|], ResponseSent, elapsed(|lines2|), request, t, response);
      AddLine(lines2, lines[|lines2|], stages2, Logged(t.traceId, ResponseSent), from, elapsed, request, t, response);
    }

    /** The stages logged before the router is asked. */
    method BeforeTool(request: HttpRequest, t: TraceState)
      requires Valid()
      modifies `log, `lines
      ensures Valid()
      ensures var tool := if t.rpcMethod == "tools/call" then [Logged(t.traceId, ToolExecuteStart)] else [];
              log == old(log) + ([Logged(t.traceId, RouteDispatch)] + tool)
      ensures old(lines) <= lines && StagesIn(old(log)) <= StagesIn(log)
      ensures forall response: HttpResponse ::
                AreLinesFor(lines, StagesIn(log), |old(lines)|, elapsed, request, t, response)
    {
      hide LinesTell, StagesIn, LifecycleText, ContextAt, AreLinesFor;
      ghost var from, before := lines, log;
      LogStageEcho(t, RouteDispatch, "in_progress", "dispatching JSON-RPC request");
      ghost var lines1, stages1 := lines, StagesIn(log);
      forall response: HttpResponse ensures AreLinesFor(lines1, stages1, |from|, elapsed, request, t, response) {
        NoLineYet(from, before, elapsed, request, t, response);
        AddLine(from, lines1[|from|], StagesIn(before), Logged(t.traceId, RouteDispatch), |from|, elapsed, request, t,
          response);
      }
      if t.rpcMethod == "tools/call" {
        LogStageEcho(t, ToolExecuteStart, "in_progress", "entering tool executor");
        forall response: HttpResponse
          ensures AreLinesFor(lines, StagesIn(log), |from|, elapsed, request, t, response) {
          AddLine(lines1, lines[|lines1|], stages1, Logged(t.traceId, ToolExecuteStart), |from|, elapsed, request, t,
            response);
        }
      }
    }
  }

  lemma AnswerLine(line: string, stage: Stage, durationMs: nat, request: HttpRequest, t: TraceState,
      response: HttpResponse)
    requires stage == ToolExecuteEnd || stage == ResponseSent
    requires line == ResponseText(response, ContextAt(t, stage, "", durationMs))
    ensures IsLineFor(line, durationMs, stage, request, t, response)
  {
    hide ResponseText, ContextAt;
  }
}

/** What the log of any run of requests says. */
module ExtensionTheorems {
  import opened Bytes
  import opened Decimals
  import opened Http
  import opened JsonRpc
  import opened JsonFields
  import opened IoEcho
  import opened JsonRpcTheorems
  import opened CommandDelivery
  import opened AnswerContents
  import opened LogLines
  import opened LogContents
  import opened Extension

  // --------------------------------------------------------------- refusals

  /** A text begins with some lower-case letters, in any case of its own letters. */
  ghost predicate StartsLike(s: string, p: string) {
    |p| <= |s| && forall i :: 0 <= i < |p| ==> s[i] == p[i] || ('A' <= s[i] <= 'Z' && s[i] as int + 32 == p[i] as int)
  }

  lemma StartsLikeExactly(s: string, p: string)
    requires forall i :: 0 <= i < |p| ==> !('A' <= p[i] <= 'Z')
    ensures p <= ToLower(s) <==> StartsLike(s, p)
  {
    if p <= ToLower(s) {
      assert forall i :: 0 <= i < |p| ==> ToLower(s)[i] == p[i];
    }
    if StartsLike(s, p) {
      assert forall i :: 0 <= i < |p| ==> ToLower(s)[i] == p[i];
    }
  }

  /** An origin is the machine's own if it is empty or, blanks aside and in any case of letters,
      begins with the scheme and one of two names of the machine. */
  lemma OriginExactly(before: string, s: string, after: string)
    requires Blank(before) && Blank(after) && Trimmed(s)
    ensures IsOriginAllowed(before + s + after) <==>
            before + s + after == "" || StartsLike(s, "http://localhost") || StartsLike(s, "http://127.0.0.1")
  {
    hide Trim, StartsLike, ToLower;
    TrimExact(before, s, after);
    StartsLikeExactly(s, "http://localhost");
    StartsLikeExactly(s, "http://127.0.0.1");
  }

  /** Headers that let a request through: an origin of the machine's own and a supported protocol
      version, where there are any. */
  ghost predicate LetThrough(headers: map<string, string>) {
    !ForeignOrigin(headers) && !UnknownVersion(headers)
  }

  ghost predicate ForeignOrigin(headers: map<string, string>) {
    "origin" in headers && !IsOriginAllowed(headers["origin"])
  }

  ghost predicate UnknownVersion(headers: map<string, string>) {
    "mcp-protocol-version" in headers && headers["mcp-protocol-version"] !in {"2025-11-25", "2025-03-26"}
  }

  /** Only a POST to `/mcp` whose headers let it through reaches the router. */
  lemma RefusedExactly(request: HttpRequest)
    ensures Refused(request).None? <==> request.path == "/mcp" && request.verb == "POST" && LetThrough(request.headers)
  {
    hide IsOriginAllowed;
  }

  ghost predicate IsRefusal(response: HttpResponse, status: int, body: string) {
    response == HttpResponse(status, "application/json; charset=utf-8", body, true)
  }

  /** Any other request runs nothing and is refused: for its path first, then its origin, its protocol
      version, and last its verb. */
  lemma RefusalExactly(request: HttpRequest, version: Option<string>, answer: (seq<Call>, Call) -> Execution,
      past: seq<Call>)
    requires !(request.path == "/mcp" && request.verb == "POST" && LetThrough(request.headers))
    ensures CallsFor(request, version) == []
    ensures var response := ResponseFor(request, version, answer, past);
            if request.path != "/mcp" then IsRefusal(response, 404, "{\"error\":\"Not Found\"}")
            else if ForeignOrigin(request.headers) then
              IsRefusal(response, 403, "{\"jsonrpc\":\"2.0\",\"id\":null,\"error\":" +
                                       "{\"code\":-32000,\"message\":\"Forbidden origin\"}}")
            else if UnknownVersion(request.headers) then
              IsRefusal(response, 400, "{\"jsonrpc\":\"2.0\",\"id\":null,\"error\":" +
                                       "{\"code\":-32600,\"message\":\"Unsupported MCP protocol version\"}}")
            else
              IsRefusal(response, 405, if request.verb == "GET"
                then "{\"error\":\"GET stream is not implemented in this MVP\"}"
                else "{\"error\":\"Method Not Allowed\"}")
  {
    hide IsOriginAllowed, PlanFor, Respond, Refusal.Response, Refused, IsRefusal, ForeignOrigin, UnknownVersion;
    RefusedExactly(request);
    RefusedOrder(request);
    RefusalTexts();
    OriginRefusalText();
    VersionRefusalText();
  }

  lemma RefusedOrder(request: HttpRequest)
    requires Refused(request).Some?
    ensures Refused(request).value ==
            if request.path != "/mcp" then NotFound
            else if ForeignOrigin(request.headers) then ForbiddenOrigin
            else if UnknownVersion(request.headers) then UnsupportedVersion
            else if request.verb == "GET" then NoStream else NotAllowed
  {
    hide IsOriginAllowed;
  }

  lemma RefusalTexts()
    ensures IsRefusal(NotFound.Response(), 404, "{\"error\":\"Not Found\"}")
    ensures IsRefusal(NoStream.Response(), 405, "{\"error\":\"GET stream is not implemented in this MVP\"}")
    ensures IsRefusal(NotAllowed.Response(), 405, "{\"error\":\"Method Not Allowed\"}")
  {
  }

  lemma OriginRefusalText()
    ensures IsRefusal(ForbiddenOrigin.Response(), 403,
              "{\"jsonrpc\":\"2.0\",\"id\":null,\"error\":" +
              "{\"code\":-32000,\"message\":\"Forbidden origin\"}}")
  {
  }

  lemma VersionRefusalText()
    ensures IsRefusal(UnsupportedVersion.Response(), 400,
              "{\"jsonrpc\":\"2.0\",\"id\":null,\"error\":" +
              "{\"code\":-32600,\"message\":\"Unsupported MCP protocol version\"}}")
  {
  }

  /** A request that is let through is answered what the router answers its body, with status, body
      and JSON type, and runs what the router runs; without a router it is an internal error. */
  lemma LetThroughIsRouted(request: HttpRequest, version: Option<string>, answer: (seq<Call>, Call) -> Execution,
      past: seq<Call>)
    requires request.path == "/mcp" && request.verb == "POST" && LetThrough(request.headers)
    ensures var response := ResponseFor(request, version, answer, past);
            if version.Some? then
              var plan := PlanFor(request.body, version.value, true);
              var r := Respond(plan, answer, past);
              response == HttpResponse(r.status, "application/json; charset=utf-8", r.body, r.hasBody) &&
              CallsFor(request, version) == CallsOf(plan)
            else
              IsRefusal(response, 500, "{\"error\":\"Router is not initialized\"}") && CallsFor(request, version) == []
  {
    hide IsOriginAllowed, PlanFor, Respond, CallsOf;
    RefusedExactly(request);
  }

  // -------------------------------------------------------------- trace state

  /** A request's trace id is the text of its id behind a prefix, or a number behind another; its
      method, id and tool are those of its tree, or empty. */
  lemma TraceStateFollowsTheTree(body: string, next: nat)
    ensures var t := TraceStateOf(body, next);
            match Tree(body)
            case None => t == TraceState("local-" + DecimalText(next), "", "", "") && NextId(next, body) ==
                         (next + 1) % 0x1_0000_0000_0000_0000
            case Some(root) =>
              var id := RawAt(root, "id");
              t == TraceState(if id.Some? then "rpc:" + id.value else "local-" + DecimalText(next),
                     OrEmpty(TextAt(root, "method")), OrEmpty(id), OrEmpty(ToolNamed(root))) &&
              NextId(next, body) == if id.Some? then next else (next + 1) % 0x1_0000_0000_0000_0000
  {
    hide RequestMetaOf, Tree, TextAt, RawAt, ToolNamed, DecimalText;
    RequestMetaFollowsTheTree(body);
  }

  /** The context of every line of a request says of it what its body does. */
  lemma ContextIsOfRequest(body: string, next: nat, stage: Stage, outcome: string, durationMs: nat)
    ensures IsContextOf(ContextAt(TraceStateOf(body, next), stage, outcome, durationMs), body)
  {
    hide TraceStateOf, Tree, TextAt, RawAt, ToolNamed, DecimalText, NextId;
    TraceStateFollowsTheTree(body, next);
  }

  /** The name a line shows for its stage. */
  ghost function StageShown(stage: Stage): string {
    if stage == RequestReceived then "request_received"
    else if stage == RouteDispatch then "route_dispatch"
    else if stage == ToolExecuteStart then "tool_execute_start"
    else if stage == ToolExecuteEnd then "tool_execute_end"
    else "response_sent"
  }

  /** Each line of a request shows its trace id and the name of its stage behind it. */
  lemma LineNamesItsStage(line: string, durationMs: nat, stage: Stage, request: HttpRequest, next: nat,
      response: HttpResponse) returns (before: string, after: string)
    requires IsLineFor(line, durationMs, stage, request, TraceStateOf(request.body, next), response)
    ensures line == before + (" trace_id=" + Brief(TraceStateOf(request.body, next).traceId) +
                    (" stage=" + StageShown(stage)) + after)
  {
    hide TraceStateOf, IsRequestSummary, LifecycleText, ResponseText, Brief, StageShown, Stage.Name;
    var t := TraceStateOf(request.body, next);
    var m := Logged(t.traceId, stage);
    match stage {
      case RequestReceived => RequestShows(request, ContextAt(t, stage, "", durationMs), line, m);
      case RouteDispatch =>
        LifecycleShows(ContextAt(t, stage, "in_progress", durationMs), "dispatching JSON-RPC request", m);
      case ToolExecuteStart =>
        LifecycleShows(ContextAt(t, stage, "in_progress", durationMs), "entering tool executor", m);
      case _ => ResponseShows(response, ContextAt(t, stage, "", durationMs), m);
    }
    before, after :| line == before + (IfAny(" trace_id=", t.traceId) + IfAny(" stage=", stage.Name()) + after);
    HasTraceId(request.body, next);
    NameIsShown(stage);
  }

  lemma HasTraceId(body: string, next: nat)
    ensures TraceStateOf(body, next).traceId != ""
  {
    hide RequestMetaOf, DecimalText;
  }

  lemma NameIsShown(stage: Stage)
    ensures IfAny(" stage=", stage.Name()) == " stage=" + StageShown(stage)
  {
    hide Brief;
    NamesAreShort(stage);
    BriefIsBrief(stage.Name());
  }

  lemma NamesAreShort(stage: Stage)
    ensures stage.Name() == StageShown(stage) != "" && |stage.Name()| <= 160 && OneLine(stage.Name())
  {
  }

  // ------------------------------------------------------------ one request

  /** The logger and the router read the same method from the same body. */
  lemma CommandsComeFromToolsCall(body: string, version: string)
    requires CallsOf(PlanFor(body, version, true)) != []
    ensures RequestMetaOf(body).rpcMethod == Some("tools/call")
  {
    hide Fields, TryGetString, TryGetRaw, TryGetObject, ToolsCall, SuccessBody, ErrorBody, InitializeResult,
         ToolsListResult;
  }

  /** A request that runs a command leaves exactly this behind. */
  ghost function CommandStory(id: string, call: Call): seq<Mark> {
    [Logged(id, RequestReceived), Logged(id, RouteDispatch), Logged(id, ToolExecuteStart), Ran(call),
     Logged(id, ToolExecuteEnd), Logged(id, ResponseSent)]
  }

  lemma StoryOfCommand(request: HttpRequest, version: Option<string>, next: nat, call: Call)
    requires CallsFor(request, version) == [call]
    ensures StoryOf(request, version, next) == CommandStory(TraceStateOf(request.body, next).traceId, call)
  {
    hide PlanFor, RequestMetaOf, Refused;
    CommandsComeFromToolsCall(request.body, version.value);
    OneRun(call);
  }

  lemma OneCallAtMost(request: HttpRequest, version: Option<string>)
    ensures |CallsFor(request, version)| <= 1
  {
    hide PlanFor, Refused;
  }

  lemma OneRun(call: Call)
    ensures Runs([call]) == [Ran(call)] && Runs([]) == []
  {
    assert [call][1..] == [];
  }

  /** The method a body names is a call of a tool. */
  ghost predicate IsToolsCall(body: string) {
    Tree(body).Some? && TextAt(Tree(body).value, "method") == Some("tools/call")
  }

  /** What a request leaves behind: nothing off the path; reception and answer if it is refused; else
      dispatch in between, and for the call of a tool its start, its command if it runs one, and its
      end, unless there is no router. */
  lemma StoryExactly(request: HttpRequest, version: Option<string>, next: nat)
    ensures var id, tool, calls := TraceStateOf(request.body, next).traceId, IsToolsCall(request.body),
              CallsFor(request, version);
            StoryOf(request, version, next) ==
            if request.path != "/mcp" then []
            else if !(request.verb == "POST" && LetThrough(request.headers))
            then [Logged(id, RequestReceived), Logged(id, ResponseSent)]
            else [Logged(id, RequestReceived), Logged(id, RouteDispatch)] +
                 (if tool then [Logged(id, ToolExecuteStart)] else []) +
                 (if version.Some? && calls != [] then [Ran(calls[0])] else []) +
                 (if version.Some? && tool then [Logged(id, ToolExecuteEnd)] else []) + [Logged(id, ResponseSent)]
  {
    hide TraceStateOf, PlanFor, Refused, LetThrough, Tree, TextAt, RawAt, ToolNamed, DecimalText, NextId, IsToolsCall;
    RefusedExactly(request);
    RefusedPath(request);
    ToolIsTraced(request.body, next);
    OneCallAtMost(request, version);
    var calls := CallsFor(request, version);
    if calls != [] {
      OneRun(calls[0]);
      assert calls == [calls[0]];
    } else {
      OneRun(Call("", Options(0, "")));
    }
  }

  lemma ToolIsTraced(body: string, next: nat)
    ensures TraceStateOf(body, next).rpcMethod == "tools/call" <==> IsToolsCall(body)
  {
    hide TraceStateOf, Tree, TextAt, RawAt, ToolNamed, DecimalText, NextId;
    TraceStateFollowsTheTree(body, next);
  }

  /** A story with no command in it holds only stages of its own trace id. */
  lemma StoryWithoutCommand(request: HttpRequest, t: TraceState, hasRouter: bool)
    ensures forall m: Mark :: m in Story(request, t, hasRouter, []) ==> m.Logged? && m.traceId == t.traceId
  {
    hide Refused;
  }

  ghost predicate LogsOnce(story: seq<Mark>, id: string) {
    |story| >= 2 &&
    story[0] == Logged(id, RequestReceived) && story[|story| - 1] == Logged(id, ResponseSent) &&
    forall i :: 0 < i < |story| - 1 ==> story[i].Logged? ==>
      story[i].traceId == id && story[i].stage != RequestReceived && story[i].stage != ResponseSent
  }

  /** Each request to `/mcp` logs its reception first and its answer last, each once; any other
      request logs nothing. */
  lemma StoryShape(request: HttpRequest, version: Option<string>, next: nat)
    ensures if request.path == "/mcp"
            then LogsOnce(StoryOf(request, version, next), TraceStateOf(request.body, next).traceId)
            else StoryOf(request, version, next) == []
  {
    hide TraceStateOf, CallsFor, Refused;
    RefusedPath(request);
    OneCallAtMost(request, version);
    if CallsFor(request, version) != [] {
      NotRefused(request, version);
      StoryOfCommand(request, version, next, CallsFor(request, version)[0]);
    } else {
      OneRun(Call("", Options(0, "")));
      ShapeWithoutCommand(request, TraceStateOf(request.body, next), version.Some?);
    }
  }

  lemma ShapeWithoutCommand(request: HttpRequest, t: TraceState, hasRouter: bool)
    ensures if request.path == "/mcp" then LogsOnce(Story(request, t, hasRouter, []), t.traceId)
            else Story(request, t, hasRouter, []) == []
  {
    hide IsOriginAllowed;
    RefusedPath(request);
    hide Refused;
    OneRun(Call("", Options(0, "")));
  }

  lemma NotRefused(request: HttpRequest, version: Option<string>)
    requires CallsFor(request, version) != []
    ensures Refused(request).None?
  {
    hide Refused;
  }

  lemma RefusedPath(request: HttpRequest)
    ensures Refused(request) == Some(NotFound) <==> request.path != "/mcp"
  {
    hide IsOriginAllowed;
  }

  /** A command stands between the start and the end stage of its own trace id. */
  ghost predicate Bracketed(log: seq<Mark>) {
    forall i {:trigger log[i]} :: 0 <= i < |log| && log[i].Ran? ==>
      0 < i < |log| - 1 && log[i - 1].Logged? && log[i - 1].stage == ToolExecuteStart &&
      log[i + 1] == Logged(log[i - 1].traceId, ToolExecuteEnd)
  }

  lemma StoryIsBracketed(request: HttpRequest, version: Option<string>, next: nat)
    ensures Bracketed(StoryOf(request, version, next))
  {
    hide TraceStateOf, CallsFor, Refused;
    OneCallAtMost(request, version);
    if CallsFor(request, version) != [] {
      StoryOfCommand(request, version, next, CallsFor(request, version)[0]);
    } else {
      StoryWithoutCommand(request, TraceStateOf(request.body, next), version.Some?);
    }
  }

  // ------------------------------------------------------------- whole runs

  /** A request as it met the extension: with or without a router, of some version. */
  datatype Visit = Visit(request: HttpRequest, version: Option<string>)

  /** The log of a run, from a value of the counter on. */
  ghost function Journal(visits: seq<Visit>, next: nat): seq<Mark> {
    if visits == [] then []
    else StoryOf(visits[0].request, visits[0].version, next) +
         Journal(visits[1..], NextId(next, visits[0].request.body))
  }

  lemma BracketedAppend(a: seq<Mark>, b: seq<Mark>)
    requires Bracketed(a) && Bracketed(b)
    ensures Bracketed(a + b)
  {
    var log := a + b;
    forall i {:trigger log[i]} | 0 <= i < |log| && log[i].Ran?
      ensures 0 < i < |log| - 1 && log[i - 1].Logged? && log[i - 1].stage == ToolExecuteStart &&
              log[i + 1] == Logged(log[i - 1].traceId, ToolExecuteEnd)
    {
      if i < |a| {
        assert a[i].Ran?;
      } else {
        assert b[i - |a|].Ran?;
      }
    }
  }

  /** In the log of any run every command lies between the start and the end of its own request. */
  lemma {:induction false} EveryCommandIsBracketed(visits: seq<Visit>, next: nat)
    ensures Bracketed(Journal(visits, next))
    decreases |visits|
  {
    hide Bracketed, StoryOf, IsLocal;
    if visits == [] {
      NothingIsBracketed();
    } else {
      StoryIsBracketed(visits[0].request, visits[0].version, next);
      EveryCommandIsBracketed(visits[1..], NextId(next, visits[0].request.body));
      BracketedAppend(StoryOf(visits[0].request, visits[0].version, next),
        Journal(visits[1..], NextId(next, visits[0].request.body)));
    }
  }

  lemma NothingIsBracketed()
    ensures Bracketed([])
  {
  }

  /** The trace ids of a run. */
  ghost function TraceIds(bodies: seq<string>, next: nat): (ids: seq<string>)
    ensures |ids| == |bodies|
  {
    if bodies == [] then []
      else [TraceStateOf(bodies[0], next).traceId] + TraceIds(bodies[1..], NextId(next, bodies[0]))
  }

  ghost function LocalsBefore(bodies: seq<string>, i: nat): (n: nat)
    requires i <= |bodies|
    ensures n <= i
  {
    if i == 0 then 0 else LocalsBefore(bodies, i - 1) + if IsLocal(bodies[i - 1]) then 1 else 0
  }

  lemma {:induction false} LocalsAfterFirst(bodies: seq<string>, i: nat)
    requires 0 < i <= |bodies|
    ensures LocalsBefore(bodies, i) == (if IsLocal(bodies[0]) then 1 else 0) + LocalsBefore(bodies[1..], i - 1)
    decreases i
  {
    hide IsLocal;
    if i > 1 {
      LocalsAfterFirst(bodies, i - 1);
      assert bodies[1..][i - 2] == bodies[i - 1];
    } else {
      assert LocalsBefore(bodies, 0) == 0;
    }
  }

  /** The `i`-th request of a run carries its own id, or the number of the next local request. */
  lemma {:induction false} TraceIdAt(bodies: seq<string>, next: nat, i: nat)
    requires i < |bodies| && next < ID_COUNT
    ensures TraceIds(bodies, next)[i] ==
            if IsLocal(bodies[i]) then LocalTraceId((next + LocalsBefore(bodies, i)) % ID_COUNT)
            else RpcTraceId(OrEmpty(RequestMetaOf(bodies[i]).rpcId))
    decreases |bodies|
  {
    hide RequestMetaOf, LocalTraceId, RpcTraceId;
    if i == 0 {
      assert LocalsBefore(bodies, 0) == 0;
    } else {
      TraceIdAt(bodies[1..], NextId(next, bodies[0]), i - 1);
      LocalsAfterFirst(bodies, i);
      var d := if IsLocal(bodies[0]) then 1 else 0;
      Wraps(next, d, LocalsBefore(bodies[1..], i - 1));
    }
  }

  lemma Wraps(next: nat, d: nat, n: nat)
    requires next < ID_COUNT && d <= 1
    ensures ((if d == 1 then (next + 1) % ID_COUNT else next) + n) % ID_COUNT == (next + (d + n)) % ID_COUNT
  {
    if d == 1 && next + 1 == ID_COUNT {
      assert (next + (d + n)) % ID_COUNT == n % ID_COUNT;
    }
  }

  lemma {:induction false} LocalsGrow(bodies: seq<string>, i: nat, j: nat)
    requires i < j <= |bodies| && IsLocal(bodies[i])
    ensures LocalsBefore(bodies, i) < LocalsBefore(bodies, j)
    decreases j
  {
    hide IsLocal;
    if j > i + 1 {
      LocalsGrow(bodies, i, j - 1);
    }
  }

  lemma LocalIdsDiffer(m: nat, n: nat)
    requires m != n
    ensures LocalTraceId(m) != LocalTraceId(n)
  {
    hide DecimalText;
    if LocalTraceId(m) == LocalTraceId(n) {
      assert LocalTraceId(m)[6..] == DecimalText(m) && LocalTraceId(n)[6..] == DecimalText(n);
      DecimalInjective(m, n);
    }
  }

  lemma LocalIsNotRpc(n: nat, raw: string)
    ensures LocalTraceId(n) != RpcTraceId(raw)
  {
    hide DecimalText;
    assert LocalTraceId(n)[0] == 'l' && RpcTraceId(raw)[0] == 'r';
  }

  lemma SmallDifference(next: nat, m: nat, n: nat)
    requires m < n < ID_COUNT
    ensures (next + m) % ID_COUNT != (next + n) % ID_COUNT
  {
    var q, r := (next + m) / ID_COUNT, (next + m) % ID_COUNT;
    assert next + n == q * ID_COUNT + (r + (n - m));
    if r + (n - m) < ID_COUNT {
      assert (next + n) % ID_COUNT == r + (n - m);
    } else {
      assert next + n == (q + 1) * ID_COUNT + (r + (n - m) - ID_COUNT);
      assert (next + n) % ID_COUNT == r + (n - m) - ID_COUNT;
    }
  }

  /** In a run of at most 2^64 requests a number given by the extension is given once, and is never
      mistaken for the id of a request. */
  lemma LocalTraceIdsAreUnique(bodies: seq<string>, next: nat, i: nat, j: nat)
    requires next < ID_COUNT && |bodies| <= ID_COUNT && i < |bodies| && j < |bodies| && i != j && IsLocal(bodies[i])
    ensures TraceIds(bodies, next)[i] != TraceIds(bodies, next)[j]
  {
    hide IsLocal, RequestMetaOf, LocalTraceId, RpcTraceId;
    TraceIdAt(bodies, next, i);
    TraceIdAt(bodies, next, j);
    var m, n := LocalsBefore(bodies, i), LocalsBefore(bodies, j);
    if !IsLocal(bodies[j]) {
      LocalIsNotRpc((next + m) % ID_COUNT, OrEmpty(RequestMetaOf(bodies[j]).rpcId));
    } else if i < j {
      LocalsGrow(bodies, i, j);
      SmallDifference(next, m, n);
      LocalIdsDiffer((next + m) % ID_COUNT, (next + n) % ID_COUNT);
    } else {
      LocalsGrow(bodies, j, i);
      SmallDifference(next, n, m);
      LocalIdsDiffer((next + m) % ID_COUNT, (next + n) % ID_COUNT);
    }
  }

  // ---------------------------------------------------- marks of one request

  ghost function BodiesOf(visits: seq<Visit>): (bodies: seq<string>)
    ensures |bodies| == |visits| && forall i :: 0 <= i < |visits| ==> bodies[i] == visits[i].request.body
  {
    seq(|visits|, i requires 0 <= i < |visits| => visits[i].request.body)
  }

  /** The visit that left the mark at position `p` of a journal. */
  ghost function VisitOf(visits: seq<Visit>, next: nat, p: nat): (i: nat)
    requires p < |Journal(visits, next)|
    ensures i < |visits|
    decreases |visits|
  {
    var story := StoryOf(visits[0].request, visits[0].version, next);
    if p < |story| then 0 else 1 + VisitOf(visits[1..], NextId(next, visits[0].request.body), p - |story|)
  }

  lemma StoryHasOneId(request: HttpRequest, version: Option<string>, next: nat, m: Mark)
    requires m in StoryOf(request, version, next) && m.Logged?
    ensures m.traceId == TraceStateOf(request.body, next).traceId
  {
    hide TraceStateOf, StoryOf, Refused;
    StoryShape(request, version, next);
    assert request.path == "/mcp";
  }

  /** A stage in a journal carries the trace id of the visit it belongs to. */
  lemma {:induction false} MarkOfVisit(visits: seq<Visit>, next: nat, p: nat)
    requires p < |Journal(visits, next)| && Journal(visits, next)[p].Logged?
    ensures Journal(visits, next)[p].traceId == TraceIds(BodiesOf(visits), next)[VisitOf(visits, next, p)]
    decreases |visits|
  {
    hide StoryOf, TraceStateOf, NextId;
    var story, rest := StoryOf(visits[0].request, visits[0].version, next), NextId(next, visits[0].request.body);
    assert BodiesOf(visits)[1..] == BodiesOf(visits[1..]) && BodiesOf(visits)[0] == visits[0].request.body;
    if p < |story| {
      StoryHasOneId(visits[0].request, visits[0].version, next, story[p]);
    } else {
      MarkOfVisit(visits[1..], rest, p - |story|);
    }
  }

  /** In a run of at most 2^64 requests, stages with the trace id of a local request all belong to
      that one request. */
  lemma StagesOfOneRequest(visits: seq<Visit>, next: nat, p: nat, q: nat)
    requires next < ID_COUNT && |visits| <= ID_COUNT
    requires p < |Journal(visits, next)| && q < |Journal(visits, next)|
    requires Journal(visits, next)[p].Logged? && Journal(visits, next)[q].Logged?
    requires Journal(visits, next)[p].traceId == Journal(visits, next)[q].traceId
    requires IsLocal(visits[VisitOf(visits, next, p)].request.body)
    ensures VisitOf(visits, next, p) == VisitOf(visits, next, q)
  {
    hide Journal, VisitOf, TraceIds, IsLocal;
    MarkOfVisit(visits, next, p);
    MarkOfVisit(visits, next, q);
    var i, j := VisitOf(visits, next, p), VisitOf(visits, next, q);
    if i != j {
      LocalTraceIdsAreUnique(BodiesOf(visits), next, i, j);
    }
  }

  // ----------------------------------------------------------- the sent line

  /** Whether a request that reached a router went through. */
  ghost function TrueOutcome(request: HttpRequest, version: string, answer: (seq<Call>, Call) -> Execution,
      past: seq<Call>): string {
    if Succeeds(request.body, version, true, answer, past) then "success" else "error"
  }

  /** The line logged for an answer with a body shows `success` exactly when the request went
      through, and `error` otherwise. */
  lemma SentLineTellsTheTruth(request: HttpRequest, version: string, answer: (seq<Call>, Call) -> Execution,
      past: seq<Call>, ctx: TraceContext)
    requires Refused(request).None? && ctx.outcome == ""
    ensures var response := ResponseFor(request, Some(version), answer, past);
            response.hasBody ==>
              BeforeOutcome(response, ctx) + (" rpc_outcome=" + TrueOutcome(request, version, answer, past)) <=
              ResponseText(response, ctx)
  {
    hide Refused, PlanFor, Respond, ResponseMetaOf, BeforeOutcome, ResponseText, Succeeds, RequestId;
    LoggedOutcomeTellsTheTruth(request.body, version, true, answer, past);
    var response := ResponseFor(request, Some(version), answer, past);
    if response.hasBody {
      SummaryShowsOutcome(response, ctx);
    }
  }
}

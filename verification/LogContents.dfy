/** What the logged lines show, read off the syntax trees of the request and of the answer. */
module LogContents {
  import opened Bytes
  import opened Decimals
  import opened JsonGrammar
  import opened Http
  import opened CommandDelivery
  import opened AnswerContents
  import opened IoEcho
  import opened LogLines

  function OrMissing(o: Option<string>): string {
    match o case Some(s) => s case None => "(missing)"
  }

  /** A context that says of a request what its body does. */
  ghost predicate IsContextOf(ctx: TraceContext, body: string) {
    ctx.traceId != "" && ctx.stage != "" &&
    match Tree(body)
    case None => ctx.rpcMethod == ctx.rpcId == ctx.toolName == ""
    case Some(root) => ctx.rpcMethod == OrEmpty(TextAt(root, "method")) &&
                       ctx.rpcId == OrEmpty(RawAt(root, "id")) && ctx.toolName == OrEmpty(ToolNamed(root))
  }

  /** What a line shows of where it belongs. */
  ghost function WhereShown(ctx: TraceContext): string {
    " trace_id=" + Brief(ctx.traceId) + (" stage=" + Brief(ctx.stage)) + (" duration_ms=" + DecimalText(ctx.durationMs))
  }

  /** What it shows of the body of a request. */
  ghost function RequestShown(tree: Option<seq<Member>>): string
    requires tree.Some? ==> WFMembers(tree.value)
  {
    match tree
    case None => " rpc_meta=unparseable"
    case Some(root) =>
      " rpc_method=" + Brief(OrMissing(TextAt(root, "method"))) + (" rpc_id=" + Brief(OrMissing(RawAt(root, "id")))) +
      (if TextAt(root, "method") != Some("tools/call") then ""
       else " tool=" + Brief(if OrEmpty(ToolNamed(root)) == "" then "(missing)" else OrEmpty(ToolNamed(root))))
  }

  lemma WhereIsShown(ctx: TraceContext)
    requires ctx.traceId != "" && ctx.stage != ""
    ensures TraceText(ctx) == WhereShown(ctx)
  {
    hide Brief, DecimalText;
  }

  lemma RequestIsShown(body: string, ctx: TraceContext)
    requires IsContextOf(ctx, body)
    ensures RequestMetaOf(body).parseable <==> Tree(body).Some?
    ensures (if Tree(body).Some? then RpcRequestText(RequestMetaOf(body), ctx)
             else " rpc_meta=unparseable" + ContextText(ctx)) == RequestShown(Tree(body))
  {
    hide Brief, Tree, RequestMetaOf, TextAt, RawAt, ToolNamed;
    RequestMetaFollowsTheTree(body);
    NoTool(body);
    if Tree(body).None? {
      assert ContextText(ctx) == "";
    }
  }

  lemma NoTool(body: string)
    ensures Tree(body).Some? && TextAt(Tree(body).value, "method") != Some("tools/call") ==>
              ToolNamed(Tree(body).value) == None
  {
    hide Tree, TextAt;
  }

  /** The line for a request shows its verb, trace id, stage, path, the method and id its tree holds
      and the tool it calls, the size of its body, and its sensitive headers masked; nothing else. */
  lemma RequestLineReads(request: HttpRequest, ctx: TraceContext, line: string) returns (headers: string)
    requires IsRequestSummary(request, ctx, line) && IsContextOf(ctx, request.body)
    ensures IsSensitiveSummary(request.headers.Keys, headers)
    ensures line == "mcp.request method=" + Brief(request.verb) + WhereShown(ctx) + (" path=" + Brief(request.path)) +
                    RequestShown(Tree(request.body)) + (" body_bytes=" + DecimalText(|request.body|)) + " " + headers
  {
    hide Brief, DecimalText, Tree, RequestMetaOf, IsSensitiveSummary, TraceText, WhereShown, RpcRequestText,
         ContextText, RequestShown, TextAt, RawAt, ToolNamed;
    headers :| IsSensitiveSummary(request.headers.Keys, headers) &&
      line == RequestText(request.verb, request.path, request.body, ctx) + headers;
    WhereIsShown(ctx);
    RequestIsShown(request.body, ctx);
  }

  /** The line for a stage shows its trace id and name, what its context says of the request, and the
      outcome and message it is logged with. */
  lemma StageLineReads(ctx: TraceContext, message: string)
    requires ctx.traceId != "" && ctx.stage != "" && ctx.outcome != "" && message != ""
    ensures LifecycleText(ctx, message) ==
            "mcp.stage" + WhereShown(ctx) +
            ((if ctx.rpcMethod == "" then "" else " rpc_method=" + Brief(ctx.rpcMethod)) +
             (if ctx.rpcId == "" then "" else " rpc_id=" + Brief(ctx.rpcId)) +
             (if ctx.toolName == "" then "" else " tool=" + Brief(ctx.toolName))) +
            (" outcome=" + Brief(ctx.outcome)) + (" msg=" + Brief(message))
  {
    hide Brief, TraceText, WhereShown;
    WhereIsShown(ctx);
  }

  // ---------------------------------------------------------------- answers

  /** What a line shows of the outcome an answer states. */
  ghost function OutcomeShown(root: seq<Member>): string
    requires WFMembers(root)
  {
    if RawAt(root, "error").Some? || (RawAt(root, "result").Some? && SaysError(root)) then "error"
    else if RawAt(root, "result").Some? then "success" else "unknown"
  }

  /** What it shows of the body of an answer. */
  ghost function AnswerShown(root: seq<Member>, tool: string): string
    requires WFMembers(root)
  {
    (if OrEmpty(RawAt(root, "id")) == "" then "" else " rpc_id=" + Brief(OrEmpty(RawAt(root, "id")))) +
    (" rpc_outcome=" + OutcomeShown(root)) + (if tool == "" then "" else " tool=" + Brief(tool)) +
    (if RawAt(root, "error").Some? then " error=" + Brief(RawAt(root, "error").value)
     else if RawAt(root, "result").Some? then " result=" + Brief(RawAt(root, "result").value) else "")
  }

  /** The line for an answer shows its status, trace id, stage, the id and outcome its body states,
      the tool called, and the error or result itself. */
  lemma AnswerLineReads(r: HttpResponse, ctx: TraceContext)
    requires r.hasBody && Tree(r.body).Some? && ctx.traceId != "" && ctx.stage != "" && ctx.outcome == ""
    requires ctx.rpcId in {"", OrEmpty(RawAt(Tree(r.body).value, "id"))}
    ensures ResponseText(r, ctx) == "mcp.response status=" + DecimalText(r.status) + WhereShown(ctx) +
                                    " has_body=true" + AnswerShown(Tree(r.body).value, ctx.toolName)
  {
    hide Brief, DecimalText, Tree, ResponseMetaOf, TraceText, WhereShown, RawAt, SaysError, RpcResponseText,
         AnswerShown;
    WhereIsShown(ctx);
    ResponseMetaFollowsTheTree(r.body);
    AnswerIsShown(r.body, ctx);
  }

  lemma AnswerIsShown(body: string, ctx: TraceContext)
    requires Tree(body).Some? && ctx.outcome == "" && ctx.rpcId in {"", OrEmpty(RawAt(Tree(body).value, "id"))}
    ensures RpcResponseText(ResponseMetaOf(body), ctx) == AnswerShown(Tree(body).value, ctx.toolName)
  {
    hide Brief, Tree, ResponseMetaOf, RawAt, SaysError, OutcomeName, OutcomeShown;
    ResponseMetaFollowsTheTree(body);
    OutcomeIsShown(Tree(body).value);
    OutcomeNamesAreBrief(ResponseMetaOf(body).outcome);
  }

  lemma OutcomeIsShown(root: seq<Member>)
    requires WFMembers(root)
    ensures OutcomeShown(root) == OutcomeName(
                if RawAt(root, "error").Some? then Errored else if RawAt(root, "result").None? then Unknown
                else if SaysError(root) then Errored else Succeeded)
  {
    hide WFMembers, RawAt, SaysError;
  }

  /** The line for an answer without a body shows its status, trace id, stage, and what its context
      says of the request. */
  lemma SilentLineReads(r: HttpResponse, ctx: TraceContext)
    requires !r.hasBody && ctx.traceId != "" && ctx.stage != "" && ctx.outcome == ""
    ensures ResponseText(r, ctx) == "mcp.response status=" + DecimalText(r.status) + WhereShown(ctx) +
                                    " has_body=false" +
                                    ((if ctx.rpcId == "" then "" else " rpc_id=" + Brief(ctx.rpcId)) +
                                     (if ctx.toolName == "" then "" else " tool=" + Brief(ctx.toolName)))
  {
    hide Brief, DecimalText, TraceText, WhereShown, ResponseMetaOf;
    WhereIsShown(ctx);
    var a, b := IfAny(" rpc_id=", ctx.rpcId), IfAny(" tool=", ctx.toolName);
    assert OutcomeContext(ctx) == a + "" + b;
  }
}

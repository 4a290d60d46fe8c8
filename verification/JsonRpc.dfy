/** The JSON-RPC router: what it answers to a request body, and when it runs a command. */
module JsonRpc {
  import opened Bytes
  import opened Decimals
  import opened JsonGrammar
  import opened JsonReader
  import opened JsonFields
  import opened JsonStrings
  import JsonScanner

  // -------------------------------------------------------------- executor

  datatype Options = Options(maxLines: int, pattern: string)
  datatype Call = Call(command: string, options: Options)
  datatype Execution = Execution(success: bool, output: string, errorMessage: string)

  /** Any debugger: its answer may depend on everything it was asked before. */
  class Executor {
    const answer: (seq<Call>, Call) -> Execution
    var calls: seq<Call>

    constructor (answer: (seq<Call>, Call) -> Execution)
      ensures this.answer == answer && calls == []
    {
      this.answer := answer;
      calls := [];
    }

    method Execute(command: string, options: Options) returns (r: Execution)
      modifies this
      ensures calls == old(calls) + [Call(command, options)]
      ensures r == answer(old(calls), Call(command, options))
    {
      r := answer(calls, Call(command, options));
      calls := calls + [Call(command, options)];
    }
  }

  // ------------------------------------------------------------- envelopes

  datatype HttpResult = HttpResult(status: int, body: string, hasBody: bool)

  /** Every failure the router reports. */
  datatype Problem =
    | ParseError(error: ScanError)
    | NotVersion2
    | MissingMethod
    | MethodNotFound
    | NoExecutor
    | ParamsNotObject
    | MissingToolName
    | UnknownTool
    | ArgumentsNotObject
    | NoCommand
  {
    function Code(): int {
      match this
      case ParseError(_) => -32700
      case NotVersion2 => -32600
      case MissingMethod => -32600
      case MethodNotFound => -32601
      case NoExecutor => -32603
      case _ => -32602
    }

    function Text(): string {
      match this
      case ParseError(error) => "Parse error: " + Message(error)
      case NotVersion2 => "Invalid Request: jsonrpc must be 2.0"
      case MissingMethod => "Invalid Request: missing method"
      case MethodNotFound => "Method not found"
      case NoExecutor => "Command executor is not available"
      case ParamsNotObject => "Invalid params: params must be an object"
      case MissingToolName => "Invalid params: missing tool name"
      case UnknownTool => "Invalid params: unknown tool name"
      case ArgumentsNotObject => "Invalid params: arguments must be an object"
      case NoCommand => "Invalid params: command must be a non-empty string"
    }
  }

  function SuccessBody(id: string, result: string): string {
    "{" + ("\"jsonrpc\":\"2.0\"," + ("\"id\":" + (id + (",\"result\":" + (result + "}")))))
  }

  function ErrorBody(id: string, code: int, message: string): string {
    "{" + ("\"jsonrpc\":\"2.0\"," + ("\"id\":" + (id + (",\"error\":{" + ("\"code\":" + (DecimalText(code) +
      (",\"message\":\"" + (Escape(message) + "\"}}"))))))))
  }

  method BuildJsonRpcSuccess(id: string, result: string) returns (body: string)
    ensures body == SuccessBody(id, result)
  {
    body := "{";
    body := body + "\"jsonrpc\":\"2.0\",";
    body := body + "\"id\":";
    body := body + id;
    body := body + ",\"result\":";
    body := body + result;
    body := body + "}";
    ConcatSix("{", "\"jsonrpc\":\"2.0\",", "\"id\":", id, ",\"result\":", result, "}");
  }

  method BuildJsonRpcError(id: string, code: int, message: string) returns (body: string)
    ensures body == ErrorBody(id, code, message)
  {
    hide JsonStrings.Escape;
    body := "{";
    body := body + "\"jsonrpc\":\"2.0\",";
    body := body + "\"id\":";
    body := body + id;
    body := body + ",\"error\":{";
    body := body + "\"code\":";
    body := body + DecimalText(code);
    body := body + ",\"message\":\"";
    var escaped := JsonScanner.Escape(message);
    body := body + escaped;
    body := body + "\"}}";
    ConcatJoin("{" + "\"jsonrpc\":\"2.0\"," + "\"id\":" + id + ",\"error\":{", "\"code\":", DecimalText(code),
      ",\"message\":\"", escaped, "\"}}");
  }

  lemma ConcatSix(a: string, b: string, c: string, d: string, e: string, f: string, g: string)
    ensures a + b + c + d + e + f + g == a + (b + (c + (d + (e + (f + g)))))
  {
  }

  lemma ConcatJoin(a: string, b: string, c: string, d: string, e: string, f: string)
    ensures a + b + c + d + e + f == a + (b + (c + (d + (e + f))))
  {
  }

  // --------------------------------------------------------- result payloads

  function TextValue(s: string): (v: Value)
    ensures WF(v)
  {
    Str(EscapePieces(s))
  }

  function Entry(key: string, v: Value): Member {
    Member(EscapePieces(key), "", "", v, "", "")
  }

  function Record(entries: seq<Member>): Value {
    Obj("", entries)
  }

  function List(v: Value): Value {
    Arr("", [Element(v, "", "")])
  }

  const FALSE := Scalar("false")
  const TRUE := Scalar("true")

  /** The constant results, as the trees whose renderings the literals of the code are. */
  function InitializeResult(version: string): Value {
    Record([
      Entry("protocolVersion", TextValue("2025-11-25")),
      Entry("capabilities", Record([
        Entry("tools", Record([Entry("listChanged", FALSE),
          Entry("availableTools", List(TextValue("windbg.eval")))]))])),
      Entry("serverInfo", Record([Entry("name", TextValue("dbgx-mcp")), Entry("version", TextValue(version))]))])
  }

  function Described(kind: string, description: string): Value {
    Record([Entry("type", TextValue(kind)), Entry("description", TextValue(description))])
  }

  function ToolsListResult(tool: string): Value {
    Record([Entry("tools", List(Record([
      Entry("name", TextValue(tool)),
      Entry("description", TextValue("Execute WinDbg command. Results returned as filtered/truncated text.")),
      Entry("inputSchema", Record([
        Entry("type", TextValue("object")),
        Entry("properties", Record([
          Entry("command", Described("string", "WinDbg command to execute")),
          Entry("max_lines", Described("integer", "Max lines to return (default 100)")),
          Entry("pattern", Described("string", "Optional substring filter"))])),
        Entry("required", List(TextValue("command"))),
        Entry("additionalProperties", FALSE)]))])))])
  }

  function PayloadText(e: Execution): string {
    if e.success then (if e.output == "" then "(no output)" else e.output)
    else if e.errorMessage == "" then "Command execution failed" else e.errorMessage
  }

  function ToolResultText(e: Execution): string {
    "{\"content\":[{\"type\":\"text\",\"text\":\"" + (Escape(PayloadText(e)) +
      ("\"}],\"isError\":" + ((if e.success then "false" else "true") + "}")))
  }

  function ToolResult(e: Execution): Value {
    Record([
      Entry("content", List(Record([Entry("type", TextValue("text")), Entry("text", TextValue(PayloadText(e)))]))),
      Entry("isError", if e.success then FALSE else TRUE)])
  }

  // -------------------------------------------------------------- dispatch

  /** What a request asks for: a finished reply, or a command to run first. */
  datatype Plan =
    | Reply(result: HttpResult)
    | Run(call: Call, id: Option<string>)

  /** What a method amounts to. */
  datatype Outcome = Done(result: string) | Failed(problem: Problem) | Execute(call: Call)

  function DispatchMethod(name: string, root: FieldMap, version: string, hasExecutor: bool): Outcome {
    if name == "notifications/initialized" || name == "initialized" then Done("{}")
    else if name == "initialize" then Done(Render(InitializeResult(version)))
    else if name == "tools/list" then Done(Render(ToolsListResult("windbg.eval")))
    else if name == "tools/call" then if hasExecutor then ToolsCall(root) else Failed(NoExecutor)
    else Failed(MethodNotFound)
  }

  function ToolsCall(root: FieldMap): (o: Outcome)
    ensures !o.Done? && (o.Failed? ==> o.problem.Code() == -32602)
  {
    match TryGetObject(root, "params")
    case None => Failed(ParamsNotObject)
    case Some(params) =>
      match TryGetString(params, "name")
      case None => Failed(MissingToolName)
      case Some(tool) =>
        if tool != "windbg.eval" then Failed(UnknownTool)
        else
          match TryGetObject(params, "arguments")
          case None => Failed(ArgumentsNotObject)
          case Some(arguments) => CommandCall(arguments)
  }

  function CommandCall(arguments: FieldMap): Outcome {
    match TryGetString(arguments, "command")
    case None => Failed(NoCommand)
    case Some(command) => if command == "" then Failed(NoCommand) else Execute(Call(command, OptionsOf(arguments)))
  }

  function OptionsOf(arguments: FieldMap): Options {
    Options(
      match TryGetInt(arguments, "max_lines") case Some(n) => n case None => 100,
      match TryGetString(arguments, "pattern") case Some(p) => p case None => "")
  }

  function IdOr(id: Option<string>): string {
    match id case Some(raw) => raw case None => "null"
  }

  /** The reply to a request whose method is done: nothing for a notification. */
  function DoneReply(id: Option<string>, result: string): HttpResult {
    match id
    case None => HttpResult(202, "", false)
    case Some(raw) => HttpResult(200, SuccessBody(raw, result), true)
  }

  function FailedReply(id: Option<string>, p: Problem): HttpResult {
    HttpResult(if p.ParseError? then 400 else 200, ErrorBody(IdOr(id), p.Code(), p.Text()), true)
  }

  function PlanFor(body: string, version: string, hasExecutor: bool): Plan {
    match Fields(body)
    case Failure(error) => Reply(FailedReply(None, ParseError(error)))
    case Success(root) =>
      var id := TryGetRaw(root, "id");
      if TryGetString(root, "jsonrpc") != Some("2.0") then Reply(FailedReply(id, NotVersion2))
      else
        match TryGetString(root, "method")
        case None => Reply(if id.None? then HttpResult(202, "", false) else FailedReply(id, MissingMethod))
        case Some(name) =>
          match DispatchMethod(name, root, version, hasExecutor)
          case Done(result) => Reply(DoneReply(id, result))
          case Failed(p) => Reply(FailedReply(id, p))
          case Execute(call) => Run(call, id)
  }

  /** The answer to a body by an executor with the given answers and past calls. */
  function Respond(plan: Plan, answer: (seq<Call>, Call) -> Execution, past: seq<Call>): HttpResult {
    match plan
    case Reply(result) => result
    case Run(call, id) => DoneReply(id, ToolResultText(answer(past, call)))
  }

  function CallsOf(plan: Plan): seq<Call> {
    match plan
    case Reply(_) => []
    case Run(call, _) => [call]
  }

  class JsonRpcRouter {
    const executor: Executor?
    const version: string

    constructor (executor: Executor?, version: string)
      ensures this.executor == executor && this.version == version
    {
      this.executor := executor;
      this.version := version;
    }

    method HandleToolsCall(root: FieldMap) returns (r: Outcome)
      modifies executor
      ensures var o := if executor == null then Failed(NoExecutor) else ToolsCall(root);
              if o.Execute? && executor != null
              then r == Done(ToolResultText(executor.answer(old(executor.calls), o.call))) &&
                executor.calls == old(executor.calls) + [o.call]
              else r == o && (executor != null ==> executor.calls == old(executor.calls))
    {
      if executor == null {
        return Failed(NoExecutor);
      }
      var params := JsonScanner.TryGetObjectField(root, "params");
      if params.None? {
        return Failed(ParamsNotObject);
      }
      var toolName := JsonScanner.TryGetStringField(params.value, "name");
      if toolName.None? {
        return Failed(MissingToolName);
      }
      if toolName.value != "windbg.eval" {
        return Failed(UnknownTool);
      }
      var arguments := JsonScanner.TryGetObjectField(params.value, "arguments");
      if arguments.None? {
        return Failed(ArgumentsNotObject);
      }
      var command := JsonScanner.TryGetStringField(arguments.value, "command");
      if command.None? || command.value == "" {
        return Failed(NoCommand);
      }
      var maxLines, pattern := 100, "";
      var maxLinesField := TryGetInt(arguments.value, "max_lines");
      if maxLinesField.Some? {
        maxLines := maxLinesField.value;
      }
      var patternField := JsonScanner.TryGetStringField(arguments.value, "pattern");
      if patternField.Some? {
        pattern := patternField.value;
      }
      var execution := executor.Execute(command.value, Options(maxLines, pattern));
      var escaped := JsonScanner.Escape(PayloadText(execution));
      r := Done("{\"content\":[{\"type\":\"text\",\"text\":\"" + (escaped +
                ("\"}],\"isError\":" + ((if execution.success then "false" else "true") + "}"))));
    }

    method HandleJsonRpcPost(body: string) returns (r: HttpResult)
      modifies executor
      ensures var plan := PlanFor(body, version, executor != null);
              if executor == null then plan.Reply? && r == plan.result
              else r == Respond(plan, executor.answer, old(executor.calls)) &&
                   executor.calls == old(executor.calls) + CallsOf(plan)
    {
      hide Fields, TryGetString, TryGetRaw, TryGetObject, TryGetInt, ToolsCall, ToolResultText, ErrorBody,
           SuccessBody, InitializeResult, ToolsListResult, Message;
      var parsed, root, error := JsonScanner.ParseObjectFields(body);
      if !parsed {
        var errorBody := BuildJsonRpcError("null", -32700, "Parse error: " + Message(error));
        return HttpResult(400, errorBody, true);
      }
      var id := JsonScanner.TryGetRawField(root, "id");
      var jsonrpc := JsonScanner.TryGetStringField(root, "jsonrpc");
      if jsonrpc.None? || jsonrpc.value != "2.0" {
        var errorBody := BuildJsonRpcError(IdOr(id), NotVersion2.Code(), NotVersion2.Text());
        return HttpResult(200, errorBody, true);
      }
      var name := JsonScanner.TryGetStringField(root, "method");
      if name.None? {
        if id.None? {
          return HttpResult(202, "", false);
        }
        var errorBody := BuildJsonRpcError(id.value, MissingMethod.Code(), MissingMethod.Text());
        return HttpResult(200, errorBody, true);
      }
      var outcome: Outcome;
      if name.value == "tools/call" {
        outcome := HandleToolsCall(root);
      } else {
        outcome := DispatchMethod(name.value, root, version, executor != null);
      }
      if outcome.Done? {
        if id.None? {
          return HttpResult(202, "", false);
        }
        var successBody := BuildJsonRpcSuccess(id.value, outcome.result);
        return HttpResult(200, successBody, true);
      }
      var errorBody := BuildJsonRpcError(IdOr(id), outcome.problem.Code(), outcome.problem.Text());
      r := HttpResult(200, errorBody, true);
    }
  }
}

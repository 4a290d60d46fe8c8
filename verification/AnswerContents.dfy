/** What each request is answered, read off the syntax trees of the request and of the answer. */
module AnswerContents {
  import opened Bytes
  import opened Decimals
  import opened JsonGrammar
  import opened JsonReader
  import opened JsonFields
  import opened JsonStrings
  import opened JsonRpc
  import opened JsonRpcTheorems
  import opened CommandDelivery

  // --------------------------------------------------------- reading a text

  /** The members of the object a text is. */
  ghost function Tree(text: string): (ms: Option<seq<Member>>)
    ensures ms.Some? ==> WFMembers(ms.value)
  {
    match Top(text)
    case Failure(_) => None
    case Success(o) => TopSound(text); Some(o.members)
  }

  lemma TreeMirrors(text: string)
    ensures Tree(text).Some? <==> Fields(text).Success?
    ensures Tree(text).Some? ==> Mirrors(Fields(text).value, Tree(text).value)
  {
    hide Top, Bind, Mirrors, WFMembers;
    if Top(text).Success? {
      TopSound(text);
      ObjectMembers(Top(text).value);
      BindMirrors(Top(text).value.members);
    }
  }

  ghost predicate HasKeys(ms: seq<Member>, keys: set<string>)
    requires WFMembers(ms)
  {
    forall key :: key in keys <==> Lookup(ms, key).Some?
  }

  /** The one element of the array a key holds. */
  ghost function OnlyAt(ms: seq<Member>, key: string): (v: Option<Value>)
    requires WFMembers(ms)
    ensures v.Some? ==> WF(v.value)
  {
    match Lookup(ms, key)
    case Some(Arr(blank, elements)) =>
      assert WF(Arr(blank, elements));
      if |elements| == 1 then assert WFElements(elements); Some(elements[0].value) else None
    case _ => None
  }

  /** The decoded text of that element, if it is a string. */
  ghost function OnlyTextAt(ms: seq<Member>, key: string): Option<string>
    requires WFMembers(ms)
  {
    match OnlyAt(ms, key)
    case Some(Str(pieces)) => Some(Decode(pieces))
    case _ => None
  }

  /** The members of that element, if it is an object. */
  ghost function OnlyObjectAt(ms: seq<Member>, key: string): (r: Option<seq<Member>>)
    requires WFMembers(ms)
    ensures r.Some? ==> WFMembers(r.value)
  {
    match OnlyAt(ms, key)
    case Some(Obj(blank, members)) => assert WF(Obj(blank, members)); Some(members)
    case _ => None
  }

  // ------------------------------------------------------ what is expected

  /** The answer to a command: one piece of text, and whether the command failed. */
  ghost predicate IsToolAnswer(ms: seq<Member>, e: Execution)
    requires WFMembers(ms)
  {
    HasKeys(ms, {"content", "isError"}) &&
    Lookup(ms, "isError") == Some(Scalar(if e.success then "false" else "true")) &&
    IsTextItem(OnlyObjectAt(ms, "content"),
      if e.success && e.output != "" then e.output
      else if e.success then "(no output)"
      else if e.errorMessage != "" then e.errorMessage
      else "Command execution failed")
  }

  ghost predicate IsTextItem(item: Option<seq<Member>>, text: string)
    requires item.Some? ==> WFMembers(item.value)
  {
    item.Some? && HasKeys(item.value, {"type", "text"}) &&
    TextAt(item.value, "type") == Some("text") && TextAt(item.value, "text") == Some(text)
  }

  /** The handshake. */
  ghost predicate IsHandshake(ms: seq<Member>, version: string)
    requires WFMembers(ms)
  {
    HasKeys(ms, {"protocolVersion", "capabilities", "serverInfo"}) &&
    TextAt(ms, "protocolVersion") == Some("2025-11-25") &&
    OffersTools(ObjectAt(ms, "capabilities")) && NamesServer(ObjectAt(ms, "serverInfo"), version)
  }

  ghost predicate OffersTools(capabilities: Option<seq<Member>>)
    requires capabilities.Some? ==> WFMembers(capabilities.value)
  {
    capabilities.Some? && HasKeys(capabilities.value, {"tools"}) && ListsTool(ObjectAt(capabilities.value, "tools"))
  }

  ghost predicate ListsTool(tools: Option<seq<Member>>)
    requires tools.Some? ==> WFMembers(tools.value)
  {
    tools.Some? && HasKeys(tools.value, {"listChanged", "availableTools"}) &&
    Lookup(tools.value, "listChanged") == Some(Scalar("false")) &&
    OnlyTextAt(tools.value, "availableTools") == Some("windbg.eval")
  }

  ghost predicate NamesServer(info: Option<seq<Member>>, version: string)
    requires info.Some? ==> WFMembers(info.value)
  {
    info.Some? && HasKeys(info.value, {"name", "version"}) &&
    TextAt(info.value, "name") == Some("dbgx-mcp") && TextAt(info.value, "version") == Some(version)
  }

  /** The list of tools: the command tool and what it takes. */
  ghost predicate IsToolList(ms: seq<Member>)
    requires WFMembers(ms)
  {
    HasKeys(ms, {"tools"}) && IsCommandTool(OnlyObjectAt(ms, "tools"))
  }

  ghost predicate IsCommandTool(tool: Option<seq<Member>>)
    requires tool.Some? ==> WFMembers(tool.value)
  {
    tool.Some? && HasKeys(tool.value, {"name", "description", "inputSchema"}) &&
    TextAt(tool.value, "name") == Some("windbg.eval") &&
    TextAt(tool.value, "description") ==
      Some("Execute WinDbg command. Results returned as filtered/truncated text.") &&
    IsSchema(ObjectAt(tool.value, "inputSchema"))
  }

  ghost predicate IsSchema(schema: Option<seq<Member>>)
    requires schema.Some? ==> WFMembers(schema.value)
  {
    schema.Some? && HasKeys(schema.value, {"type", "properties", "required", "additionalProperties"}) &&
    TextAt(schema.value, "type") == Some("object") && OnlyTextAt(schema.value, "required") == Some("command") &&
    Lookup(schema.value, "additionalProperties") == Some(Scalar("false")) &&
    HasProperties(ObjectAt(schema.value, "properties"))
  }

  ghost predicate HasProperties(properties: Option<seq<Member>>)
    requires properties.Some? ==> WFMembers(properties.value)
  {
    properties.Some? && HasKeys(properties.value, {"command", "max_lines", "pattern"}) &&
    IsProperty(ObjectAt(properties.value, "command"), "string", "WinDbg command to execute") &&
    IsProperty(ObjectAt(properties.value, "max_lines"), "integer", "Max lines to return (default 100)") &&
    IsProperty(ObjectAt(properties.value, "pattern"), "string", "Optional substring filter")
  }

  ghost predicate IsProperty(p: Option<seq<Member>>, kind: string, description: string)
    requires p.Some? ==> WFMembers(p.value)
  {
    p.Some? && HasKeys(p.value, {"type", "description"}) &&
    TextAt(p.value, "type") == Some(kind) && TextAt(p.value, "description") == Some(description)
  }

  // ---------------------------------------------------------- printed records

  lemma Keyed(ms: seq<Member>, keys: set<string>)
    requires WFMembers(ms) && forall key :: Lookup(ms, key).Some? <==> key in keys
    ensures HasKeys(ms, keys)
  {
  }

  lemma ReadOne(k: string, v: Value)
    requires WF(v)
    ensures var ms := [Entry(k, v)];
            WFMembers(ms) && WF(Record(ms)) && HasKeys(ms, {k}) && Lookup(ms, k) == Some(v)
  {
    hide WF, Entry, Lookup, WFMembers, HasKeys;
    WFOne(k, v);
    WFRecord([Entry(k, v)]);
    forall key ensures Lookup([Entry(k, v)], key) == if key == k then Some(v) else None {
      LookupOne(k, v, key);
    }
    Keyed([Entry(k, v)], {k});
  }

  lemma ReadTwo(k1: string, v1: Value, k2: string, v2: Value)
    requires WF(v1) && WF(v2) && k1 != k2
    ensures var ms := [Entry(k1, v1), Entry(k2, v2)];
            WFMembers(ms) && WF(Record(ms)) && HasKeys(ms, {k1, k2}) && Lookup(ms, k1) == Some(v1) &&
            Lookup(ms, k2) == Some(v2)
  {
    hide WF, Entry, Lookup, WFMembers, HasKeys;
    var ms := [Entry(k1, v1), Entry(k2, v2)];
    WFTwo(k1, v1, k2, v2);
    WFRecord(ms);
    forall key ensures Lookup(ms, key) == if key == k2 then Some(v2) else if key == k1 then Some(v1) else None {
      LookupTwo(k1, v1, k2, v2, key);
    }
    Keyed(ms, {k1, k2});
  }

  lemma ReadThree(k1: string, v1: Value, k2: string, v2: Value, k3: string, v3: Value)
    requires WF(v1) && WF(v2) && WF(v3) && k1 != k2 && k1 != k3 && k2 != k3
    ensures var ms := [Entry(k1, v1), Entry(k2, v2), Entry(k3, v3)];
            WFMembers(ms) && WF(Record(ms)) && HasKeys(ms, {k1, k2, k3}) && Lookup(ms, k1) == Some(v1) &&
            Lookup(ms, k2) == Some(v2) && Lookup(ms, k3) == Some(v3)
  {
    hide WF, Entry, Lookup, WFMembers, HasKeys;
    var ms := [Entry(k1, v1), Entry(k2, v2), Entry(k3, v3)];
    WFThree(k1, v1, k2, v2, k3, v3);
    WFRecord(ms);
    forall key ensures Lookup(ms, key) ==
                       if key == k3 then Some(v3) else if key == k2 then Some(v2) else if key == k1 then Some(v1)
                         else None {
      LookupThree(k1, v1, k2, v2, k3, v3, key);
    }
    Keyed(ms, {k1, k2, k3});
  }

  lemma ReadFour(k1: string, v1: Value, k2: string, v2: Value, k3: string, v3: Value, k4: string, v4: Value)
    requires WF(v1) && WF(v2) && WF(v3) && WF(v4)
    requires k1 != k2 && k1 != k3 && k1 != k4 && k2 != k3 && k2 != k4 && k3 != k4
    ensures var ms := [Entry(k1, v1), Entry(k2, v2), Entry(k3, v3), Entry(k4, v4)];
            WFMembers(ms) && WF(Record(ms)) && HasKeys(ms, {k1, k2, k3, k4}) && Lookup(ms, k1) == Some(v1) &&
            Lookup(ms, k2) == Some(v2) && Lookup(ms, k3) == Some(v3) && Lookup(ms, k4) == Some(v4)
  {
    hide WF, Entry, Lookup, WFMembers, Decode, HasKeys;
    var rest := [Entry(k2, v2), Entry(k3, v3), Entry(k4, v4)];
    var ms := [Entry(k1, v1), Entry(k2, v2), Entry(k3, v3), Entry(k4, v4)];
    WFFour(k1, v1, k2, v2, k3, v3, k4, v4);
    WFRecord(ms);
    EntryKey(k1, v1);
    EntryFields(k1, v1);
    assert ms == [Entry(k1, v1)] + rest;
    forall key ensures Lookup(ms, key) ==
                       if key == k4 then Some(v4) else if key == k3 then Some(v3) else if key == k2 then Some(v2)
                         else if key == k1 then Some(v1) else None {
      LookupThree(k2, v2, k3, v3, k4, v4, key);
      LookupCons(Entry(k1, v1), rest, key);
    }
    Keyed(ms, {k1, k2, k3, k4});
  }

  /** What a key holds, by the kind of the value put there. */
  lemma HeldObject(ms: seq<Member>, key: string, inner: seq<Member>)
    requires WFMembers(ms) && Lookup(ms, key) == Some(Record(inner))
    ensures ObjectAt(ms, key) == Some(inner)
  {
    hide WFMembers, Lookup;
  }

  lemma HeldList(ms: seq<Member>, key: string, v: Value)
    requires WFMembers(ms) && Lookup(ms, key) == Some(List(v))
    ensures OnlyAt(ms, key) == Some(v)
    ensures v.Obj? ==> OnlyObjectAt(ms, key) == Some(v.members)
  {
    hide WFMembers, Lookup;
  }

  lemma HeldTextList(ms: seq<Member>, key: string, s: string)
    requires WFMembers(ms) && Lookup(ms, key) == Some(List(TextValue(s)))
    ensures OnlyTextAt(ms, key) == Some(s)
  {
    hide WFMembers, Lookup, EscapePieces, Decode;
    HeldList(ms, key, TextValue(s));
    DecodeEscape(s);
  }

  // ------------------------------------------------- the results of the code

  lemma ToolResultReads(e: Execution)
    ensures ToolResult(e).Obj? && WF(ToolResult(e)) && WFMembers(ToolResult(e).members)
    ensures IsToolAnswer(ToolResult(e).members, e)
  {
    hide WF, WFMembers, Lookup, TextValue, List, Entry, ObjectAt, TextAt, OnlyObjectAt, HasKeys;
    var p := PayloadText(e);
    ReadTwo("type", TextValue("text"), "text", TextValue(p));
    var item := [Entry("type", TextValue("text")), Entry("text", TextValue(p))];
    TextOf(item, "type", "text");
    TextOf(item, "text", p);
    WFList(Record(item));
    WFScalars(0);
    ReadTwo("content", List(Record(item)), "isError", if e.success then FALSE else TRUE);
    HeldList(ToolResult(e).members, "content", Record(item));
  }

  lemma HandshakeReads(version: string)
    ensures var v := InitializeResult(version);
            v.Obj? && WF(v) && WFMembers(v.members) && IsHandshake(v.members, version)
  {
    hide WF, WFMembers, Lookup, TextValue, List, Entry, ObjectAt, TextAt, OnlyTextAt, HasKeys, OffersTools, NamesServer;
    var tools := ToolsOffered();
    var info := [Entry("name", TextValue("dbgx-mcp")), Entry("version", TextValue(version))];
    ServerNamed(version);
    ReadOne("tools", Record(tools));
    HeldObject([Entry("tools", Record(tools))], "tools", tools);
    ReadThree("protocolVersion", TextValue("2025-11-25"), "capabilities", Record([Entry("tools", Record(tools))]),
      "serverInfo", Record(info));
    var ms := InitializeResult(version).members;
    TextOf(ms, "protocolVersion", "2025-11-25");
    HeldObject(ms, "capabilities", [Entry("tools", Record(tools))]);
    HeldObject(ms, "serverInfo", info);
    ToolsAreOffered(tools);
  }

  lemma ToolsAreOffered(tools: seq<Member>)
    requires WFMembers(tools) && ListsTool(Some(tools))
    requires var ms := [Entry("tools", Record(tools))];
             WFMembers(ms) && HasKeys(ms, {"tools"}) && ObjectAt(ms, "tools") == Some(tools)
    ensures OffersTools(Some([Entry("tools", Record(tools))]))
  {
    hide WFMembers, HasKeys, ListsTool, ObjectAt;
  }

  lemma ToolsOffered() returns (tools: seq<Member>)
    ensures tools == [Entry("listChanged", FALSE), Entry("availableTools", List(TextValue("windbg.eval")))]
    ensures WFMembers(tools) && WF(Record(tools)) && ListsTool(Some(tools))
  {
    hide WF, WFMembers, Lookup, TextValue, List, Entry, OnlyTextAt, HasKeys;
    tools := [Entry("listChanged", FALSE), Entry("availableTools", List(TextValue("windbg.eval")))];
    WFScalars(0);
    WFList(TextValue("windbg.eval"));
    ReadTwo("listChanged", FALSE, "availableTools", List(TextValue("windbg.eval")));
    HeldTextList(tools, "availableTools", "windbg.eval");
  }

  lemma ServerNamed(version: string)
    ensures var info := [Entry("name", TextValue("dbgx-mcp")), Entry("version", TextValue(version))];
            WFMembers(info) && WF(Record(info)) && NamesServer(Some(info), version)
  {
    hide WF, WFMembers, Lookup, TextValue, Entry, TextAt, HasKeys;
    var info := [Entry("name", TextValue("dbgx-mcp")), Entry("version", TextValue(version))];
    ReadTwo("name", TextValue("dbgx-mcp"), "version", TextValue(version));
    TextOf(info, "name", "dbgx-mcp");
    TextOf(info, "version", version);
  }

  lemma PropertyReads(kind: string, description: string)
    ensures var v := Described(kind, description);
            v.Obj? && WF(v) && WFMembers(v.members) && IsProperty(Some(v.members), kind, description)
  {
    hide WF, WFMembers, Lookup, TextValue, Entry, TextAt, HasKeys;
    var ms := [Entry("type", TextValue(kind)), Entry("description", TextValue(description))];
    ReadTwo("type", TextValue(kind), "description", TextValue(description));
    TextOf(ms, "type", kind);
    TextOf(ms, "description", description);
  }

  lemma PropertiesRead() returns (ms: seq<Member>)
    ensures ms == [Entry("command", Described("string", "WinDbg command to execute")),
                   Entry("max_lines", Described("integer", "Max lines to return (default 100)")),
                   Entry("pattern", Described("string", "Optional substring filter"))]
    ensures WFMembers(ms) && WF(Record(ms)) && HasProperties(Some(ms))
  {
    hide WF, WFMembers, Lookup, Entry, HasKeys, IsProperty, ObjectAt, Described;
    var c, m, p := Described("string", "WinDbg command to execute"),
      Described("integer", "Max lines to return (default 100)"), Described("string", "Optional substring filter");
    ms := [Entry("command", c), Entry("max_lines", m), Entry("pattern", p)];
    PropertyReads("string", "WinDbg command to execute");
    PropertyReads("integer", "Max lines to return (default 100)");
    PropertyReads("string", "Optional substring filter");
    ReadThree("command", c, "max_lines", m, "pattern", p);
    HeldProperty(ms, "command", "string", "WinDbg command to execute");
    HeldProperty(ms, "max_lines", "integer", "Max lines to return (default 100)");
    HeldProperty(ms, "pattern", "string", "Optional substring filter");
  }

  lemma HeldProperty(ms: seq<Member>, key: string, kind: string, description: string)
    requires WFMembers(ms) && Lookup(ms, key) == Some(Described(kind, description))
    ensures IsProperty(ObjectAt(ms, key), kind, description)
  {
    hide WF, WFMembers, Lookup, IsProperty;
    PropertyReads(kind, description);
  }

  lemma SchemaReads(properties: seq<Member>)
    requires WFMembers(properties) && WF(Record(properties)) && HasProperties(Some(properties))
    ensures var ms := [Entry("type", TextValue("object")), Entry("properties", Record(properties)),
                       Entry("required", List(TextValue("command"))), Entry("additionalProperties", FALSE)];
            WFMembers(ms) && WF(Record(ms)) && IsSchema(Some(ms))
  {
    hide WF, WFMembers, Lookup, TextValue, List, Entry, HasKeys, TextAt, ObjectAt, OnlyTextAt, HasProperties;
    var ms := [Entry("type", TextValue("object")), Entry("properties", Record(properties)),
               Entry("required", List(TextValue("command"))), Entry("additionalProperties", FALSE)];
    WFScalars(0);
    WFList(TextValue("command"));
    ReadFour("type", TextValue("object"), "properties", Record(properties), "required", List(TextValue("command")),
      "additionalProperties", FALSE);
    TextOf(ms, "type", "object");
    HeldObject(ms, "properties", properties);
    HeldTextList(ms, "required", "command");
  }

  lemma ToolListReads()
    ensures var v := ToolsListResult("windbg.eval"); v.Obj? && WF(v) && WFMembers(v.members) && IsToolList(v.members)
  {
    hide WF, WFMembers, Lookup, TextValue, List, Entry, HasKeys, TextAt, ObjectAt, OnlyObjectAt, IsSchema, Described;
    var properties := PropertiesRead();
    SchemaReads(properties);
    var schema := [Entry("type", TextValue("object")), Entry("properties", Record(properties)),
                   Entry("required", List(TextValue("command"))), Entry("additionalProperties", FALSE)];
    var d := TextValue("Execute WinDbg command. Results returned as filtered/truncated text.");
    var tool := [Entry("name", TextValue("windbg.eval")), Entry("description", d),
                 Entry("inputSchema", Record(schema))];
    ReadThree("name", TextValue("windbg.eval"), "description", d, "inputSchema", Record(schema));
    TextOf(tool, "name", "windbg.eval");
    TextOf(tool, "description", "Execute WinDbg command. Results returned as filtered/truncated text.");
    HeldObject(tool, "inputSchema", schema);
    WFList(Record(tool));
    ReadOne("tools", List(Record(tool)));
    HeldList([Entry("tools", List(Record(tool)))], "tools", Record(tool));
  }

  // ------------------------------------------------ the answer to a request

  /** What is wrong with the parameters of a `tools/call` request. */
  ghost function CallProblem(root: seq<Member>): Option<string>
    requires WFMembers(root)
  {
    match ObjectAt(root, "params")
    case None => Some("Invalid params: params must be an object")
    case Some(params) =>
      if TextAt(params, "name").None? then Some("Invalid params: missing tool name")
      else if TextAt(params, "name") != Some("windbg.eval") then Some("Invalid params: unknown tool name")
      else
        match ObjectAt(params, "arguments")
        case None => Some("Invalid params: arguments must be an object")
        case Some(arguments) =>
          if TextAt(arguments, "command") in {None, Some("")}
          then Some("Invalid params: command must be a non-empty string") else None
  }

  /** The error a request object meets, if any: its code and message. */
  ghost function ErrorFor(root: seq<Member>, hasExecutor: bool): Option<(int, string)>
    requires WFMembers(root)
  {
    if TextAt(root, "jsonrpc") != Some("2.0") then Some((-32600, "Invalid Request: jsonrpc must be 2.0"))
    else
      match TextAt(root, "method")
      case None => Some((-32600, "Invalid Request: missing method"))
      case Some(name) =>
        if name in {"initialize", "initialized", "notifications/initialized", "tools/list"} then None
        else if name != "tools/call" then Some((-32601, "Method not found"))
        else if !hasExecutor then Some((-32603, "Command executor is not available"))
        else match CallProblem(root) case None => None case Some(text) => Some((-32602, text))
  }

  /** A version 2.0 object without an id, whose method is missing or meets no error. */
  ghost predicate IsSilent(root: seq<Member>, hasExecutor: bool)
    requires WFMembers(root)
  {
    Lookup(root, "id").None? && TextAt(root, "jsonrpc") == Some("2.0") &&
    (TextAt(root, "method").None? || ErrorFor(root, hasExecutor).None?)
  }

  /** A version 2.0 object with an id and one more member, and nothing else. */
  ghost predicate IsAnswerObject(ms: seq<Member>, id: Value, key: string)
    requires WFMembers(ms)
  {
    HasKeys(ms, {"jsonrpc", "id", key}) && TextAt(ms, "jsonrpc") == Some("2.0") && Lookup(ms, "id") == Some(id)
  }

  ghost predicate IsErrorAnswer(text: string, id: Value, code: int, message: string) {
    var ms := Tree(text);
    ms.Some? && IsAnswerObject(ms.value, id, "error") && IsErrorObject(ObjectAt(ms.value, "error"), code, message)
  }

  ghost predicate IsErrorObject(error: Option<seq<Member>>, code: int, message: string)
    requires error.Some? ==> WFMembers(error.value)
  {
    error.Some? && HasKeys(error.value, {"code", "message"}) && TextAt(error.value, "message") == Some(message) &&
    match Lookup(error.value, "code") case Some(Scalar(run)) => IsNumeral(run, code) case _ => false
  }

  /** What is answered to a method under `result`, given the execution of the command it runs. */
  ghost predicate IsResultFor(name: string, result: Option<seq<Member>>, version: string, e: Option<Execution>)
    requires result.Some? ==> WFMembers(result.value)
  {
    result.Some? &&
    if name == "initialize" then IsHandshake(result.value, version)
    else if name == "tools/list" then IsToolList(result.value)
    else if name == "tools/call" then e.Some? && IsToolAnswer(result.value, e.value)
    else HasKeys(result.value, {})
  }

  ghost predicate IsResultAnswer(text: string, id: Value, name: string, version: string, e: Option<Execution>) {
    var ms := Tree(text);
    ms.Some? && IsAnswerObject(ms.value, id, "result") && IsResultFor(name, ObjectAt(ms.value, "result"), version, e)
  }

  /** The execution of the command a request asks for. */
  ghost function ExecutionFor(root: seq<Member>, answer: (seq<Call>, Call) -> Execution, past: seq<Call>):
      Option<Execution>
    requires WFMembers(root)
  {
    match CommandOf(root) case Some(call) => Some(answer(past, call)) case None => None
  }

  /** The right answer to a request object. */
  ghost predicate IsAnswerTo(r: HttpResult, root: seq<Member>, version: string, hasExecutor: bool,
      answer: (seq<Call>, Call) -> Execution, past: seq<Call>)
    requires WFMembers(root)
  {
    var id := match Lookup(root, "id") case Some(v) => v case None => Scalar("null");
    if IsSilent(root, hasExecutor) then r == HttpResult(202, "", false)
    else
      r.status == 200 && r.hasBody &&
      match ErrorFor(root, hasExecutor)
      case Some(error) => IsErrorAnswer(r.body, id, error.0, error.1)
      case None => TextAt(root, "method").Some? &&
                   IsResultAnswer(r.body, id, TextAt(root, "method").value, version, ExecutionFor(root, answer, past))
  }

  // ------------------------------------------------------------- envelopes

  lemma EnvelopeReads(id: Value, key: string, payload: Value)
    requires WF(id) && WF(payload) && IsPlainText(key) && key != "id" && key != "jsonrpc"
    ensures var ms := Tree(EnvelopeBody(Render(id), key, Render(payload)));
            ms.Some? && IsAnswerObject(ms.value, id, key) && Lookup(ms.value, key) == Some(payload)
  {
    hide WF, WFMembers, Lookup, TextValue, Entry, HasKeys, TextAt, EnvelopeBody, Render, Top;
    EnvelopeTop(id, key, payload);
    ReadThree("jsonrpc", TextValue("2.0"), "id", id, key, payload);
    TextOf(Envelope(id, key, payload).members, "jsonrpc", "2.0");
  }

  lemma ResultEnvelope(id: Value, payload: Value)
    requires WF(id) && WF(payload) && payload.Obj?
    ensures var ms := Tree(SuccessBody(Render(id), Render(payload)));
            ms.Some? && IsAnswerObject(ms.value, id, "result") &&
            ObjectAt(ms.value, "result") == Some(payload.members)
  {
    hide WF, WFMembers, Lookup, EnvelopeBody, SuccessBody, Render, IsPlainText, Tree, IsAnswerObject;
    PlainWords();
    SuccessBodyIsEnvelope(Render(id), Render(payload));
    EnvelopeReads(id, "result", payload);
  }

  lemma ErrorReads(id: Value, code: int, message: string)
    requires WF(id)
    ensures IsErrorAnswer(ErrorBody(Render(id), code, message), id, code, message)
  {
    hide WF, WFMembers, Lookup, EnvelopeBody, ErrorBody, Render, IsPlainText, Tree, IsAnswerObject, IsErrorObject,
         TextValue, Entry;
    PlainWords();
    ErrorBodyIsEnvelope(Render(id), code, message);
    WFErrorValue(code, message);
    EnvelopeReads(id, "error", ErrorValue(code, message));
    ErrorObjectReads(code, message);
  }

  lemma ErrorObjectReads(code: int, message: string)
    ensures var ms := ErrorValue(code, message).members;
            WFMembers(ms) && IsErrorObject(Some(ms), code, message)
  {
    hide WF, WFMembers, Lookup, TextValue, Entry, HasKeys, TextAt, IsNumeral, DecimalText;
    WFScalars(code);
    NumeralText(code);
    ReadTwo("code", Scalar(DecimalText(code)), "message", TextValue(message));
    TextOf(ErrorValue(code, message).members, "message", message);
  }

  // ---------------------------------------------- the router against the trees

  /** The parameters of a call fail in the code as they do in the tree. */
  lemma CallFollowsTheTree(fields: FieldMap, ms: seq<Member>)
    requires Mirrors(fields, ms) && TextAt(ms, "jsonrpc") == Some("2.0") && TextAt(ms, "method") == Some("tools/call")
    ensures match CallProblem(ms)
            case Some(text) => ToolsCall(fields).Failed? && ToolsCall(fields).problem.Code() == -32602 &&
                               ToolsCall(fields).problem.Text() == text && CommandOf(ms).None?
            case None => CommandOf(ms).Some? && ToolsCall(fields) == Execute(CommandOf(ms).value)
  {
    hide WFMembers, TryGetString, TryGetObject, TextAt, ObjectAt, CommandCall, CommandIn, Message;
    ToolsCallGetter(fields, ms);
    ObjectGetter(fields, ms, "params");
    if ObjectAt(ms, "params").Some? {
      var params, paramsTree := TryGetObject(fields, "params").value, ObjectAt(ms, "params").value;
      StringGetter(params, paramsTree, "name");
      ObjectGetter(params, paramsTree, "arguments");
      if ObjectAt(paramsTree, "arguments").Some? {
        var arguments, tree := TryGetObject(params, "arguments").value, ObjectAt(paramsTree, "arguments").value;
        StringGetter(arguments, tree, "command");
        CommandPresent(arguments, tree);
      }
    }
  }

  lemma CommandPresent(arguments: FieldMap, tree: seq<Member>)
    requires WFMembers(tree) && TryGetString(arguments, "command") == TextAt(tree, "command")
    ensures var missing := TextAt(tree, "command") in {None, Some("")};
            (CommandIn(tree).None? <==> missing) && (missing ==> CommandCall(arguments) == Failed(NoCommand)) &&
            (!missing ==> CommandCall(arguments).Execute?)
  {
    hide WFMembers, TryGetString, TextAt, IntAt, TryGetInt;
  }

  /** A method ends in the code as it does in the tree; a result that needs no command comes with its tree. */
  lemma DispatchFollowsTheTree(name: string, fields: FieldMap, ms: seq<Member>, version: string, hasExecutor: bool)
      returns (v: Value)
    requires Mirrors(fields, ms) && TextAt(ms, "jsonrpc") == Some("2.0") && TextAt(ms, "method") == Some(name)
    ensures WF(v) && v.Obj? && WFMembers(v.members)
    ensures var o := DispatchMethod(name, fields, version, hasExecutor);
            match ErrorFor(ms, hasExecutor)
            case Some(error) => o.Failed? && (o.problem.Code(), o.problem.Text()) == error && !o.problem.ParseError?
            case None =>
              if name == "tools/call" then CommandOf(ms).Some? && o == Execute(CommandOf(ms).value)
              else o == Done(Render(v)) && IsResultFor(name, Some(v.members), version, None)
  {
    hide Mirrors, WF, WFMembers, Lookup, Render, InitializeResult, ToolsListResult, ToolsCall, TextAt, ObjectAt,
         CallProblem, CommandOf, IsHandshake, IsToolList, HasKeys, Message;
    v := Record([]);
    EmptyObject();
    EmptyReads();
    if name == "initialize" {
      v := InitializeResult(version);
      HandshakeReads(version);
    } else if name == "tools/list" {
      v := ToolsListResult("windbg.eval");
      ToolListReads();
    } else if name == "tools/call" {
      CallFollowsTheTree(fields, ms);
      CallIsNoParse(fields);
    }
  }

  lemma EmptyReads()
    ensures WFMembers([]) && HasKeys([], {}) && Record([]).members == []
  {
  }

  lemma CallIsNoParse(fields: FieldMap)
    ensures ToolsCall(fields).Failed? ==> !ToolsCall(fields).problem.ParseError?
  {
    hide TryGetString, TryGetObject, CommandCall;
    CommandIsNoParse();
  }

  lemma CommandIsNoParse()
    ensures forall arguments: FieldMap :: CommandCall(arguments).Failed? ==> CommandCall(arguments).problem == NoCommand
  {
    hide TryGetString, OptionsOf;
  }

  /** Every request object is answered as its tree says: nothing, the error it meets with code and
      message, or the result of its method, under its own id and nothing besides. */
  lemma AnswerFollowsTheTree(body: string, o: Value, version: string, hasExecutor: bool,
      answer: (seq<Call>, Call) -> Execution, past: seq<Call>)
    requires o.Obj? && WF(o) && ObjectText(body, o)
    ensures IsAnswerTo(Respond(PlanFor(body, version, hasExecutor), answer, past), o.members, version, hasExecutor,
              answer, past)
  {
    hide Mirrors, WF, WFMembers, TryGetString, TryGetRaw, TextAt, ObjectAt, Bind, ObjectText, Render, ErrorBody, Lookup,
         SuccessBody, Top, DispatchMethod, ErrorFor, CommandOf, IsErrorAnswer, IsResultAnswer, Message, Problem.Text,
         Problem.Code, ToolResultText;
    GrammarEquivalence(body, o);
    var fields := Fields(body).value;
    ObjectMembers(o);
    EarlyProblems();
    BindMirrors(o.members);
    StringGetter(fields, o.members, "jsonrpc");
    StringGetter(fields, o.members, "method");
    RawGetter(fields, o.members, "id");
    WFScalars(0);
    ScalarText("null");
    var id := match Lookup(o.members, "id") case Some(v) => v case None => Scalar("null");
    assert IdOr(TryGetRaw(fields, "id")) == Render(id);
    EarlyErrors(o.members, hasExecutor);
    if TextAt(o.members, "jsonrpc") != Some("2.0") {
      ProblemReads(id, NotVersion2, -32600, "Invalid Request: jsonrpc must be 2.0");
    } else if TextAt(o.members, "method").None? {
      ProblemReads(id, MissingMethod, -32600, "Invalid Request: missing method");
    } else {
      var name := TextAt(o.members, "method").value;
      var v := DispatchFollowsTheTree(name, fields, o.members, version, hasExecutor);
      match ErrorFor(o.members, hasExecutor)
      case Some(error) =>
        ProblemReads(id, DispatchMethod(name, fields, version, hasExecutor).problem, error.0, error.1);
      case None =>
        if name == "tools/call" {
          CommandReads(id, version, answer(past, CommandOf(o.members).value));
        } else {
          ResultReads(id, name, v, version, ExecutionFor(o.members, answer, past));
        }
    }
  }

  lemma ObjectMembers(o: Value)
    requires o.Obj? && WF(o)
    ensures WFMembers(o.members)
  {
  }

  lemma EarlyProblems()
    ensures NotVersion2.Code() == -32600 && NotVersion2.Text() == "Invalid Request: jsonrpc must be 2.0"
    ensures MissingMethod.Code() == -32600 && MissingMethod.Text() == "Invalid Request: missing method"
  {
  }

  lemma EarlyErrors(root: seq<Member>, hasExecutor: bool)
    requires WFMembers(root)
    ensures TextAt(root, "jsonrpc") != Some("2.0") ==>
              ErrorFor(root, hasExecutor) == Some((-32600, "Invalid Request: jsonrpc must be 2.0"))
    ensures TextAt(root, "jsonrpc") == Some("2.0") && TextAt(root, "method").None? ==>
              ErrorFor(root, hasExecutor) == Some((-32600, "Invalid Request: missing method"))
  {
    hide WFMembers, TextAt, CallProblem;
  }

  lemma ProblemReads(id: Value, p: Problem, code: int, message: string)
    requires WF(id) && p.Code() == code && p.Text() == message
    ensures IsErrorAnswer(ErrorBody(Render(id), p.Code(), p.Text()), id, code, message)
  {
    hide WF, Render, ErrorBody, Problem.Code, Problem.Text, IsErrorAnswer;
    ErrorReads(id, code, message);
  }

  lemma CommandReads(id: Value, version: string, e: Execution)
    requires WF(id)
    ensures IsResultAnswer(SuccessBody(Render(id), ToolResultText(e)), id, "tools/call", version, Some(e))
  {
    hide WF, WFMembers, Render, SuccessBody, ToolResultText, ToolResult, Tree, IsAnswerObject, IsToolAnswer, Lookup;
    ToolResultReads(e);
    ToolResultIsRecord(e);
    ResultEnvelope(id, ToolResult(e));
  }

  lemma ResultReads(id: Value, name: string, v: Value, version: string, e: Option<Execution>)
    requires WF(id) && WF(v) && v.Obj? && WFMembers(v.members) && name != "tools/call"
    requires IsResultFor(name, Some(v.members), version, None)
    ensures IsResultAnswer(SuccessBody(Render(id), Render(v)), id, name, version, e)
  {
    hide WF, WFMembers, Render, SuccessBody, Tree, IsAnswerObject, IsHandshake, IsToolList, HasKeys, Lookup;
    ResultEnvelope(id, v);
  }

  /** A body that is no object is answered with a parse error, under no id. */
  lemma NoObjectIsParseError(body: string, version: string, hasExecutor: bool,
      answer: (seq<Call>, Call) -> Execution, past: seq<Call>) returns (reason: string)
    requires forall o: Value :: o.Obj? && WF(o) ==> !ObjectText(body, o)
    ensures var r := Respond(PlanFor(body, version, hasExecutor), answer, past);
            r.status == 400 && r.hasBody &&
            IsErrorAnswer(r.body, Scalar("null"), -32700, "Parse error: " + reason)
  {
    hide ObjectText, WF, ErrorBody, IsErrorAnswer, Message, Render, Top;
    if Top(body).Success? {
      TopSound(body);
    }
    reason := Message(Top(body).error);
    ReasonReads(body, Top(body).error, reason, version, hasExecutor, answer, past);
  }

  /** What a command's answer holds. */
  ghost predicate IsCommandAnswer(text: string, id: Value, e: Execution) {
    var ms := Tree(text);
    ms.Some? && IsAnswerObject(ms.value, id, "result") && HoldsToolAnswer(ObjectAt(ms.value, "result"), e)
  }

  ghost predicate HoldsToolAnswer(result: Option<seq<Member>>, e: Execution)
    requires result.Some? ==> WFMembers(result.value)
  {
    result.Some? && IsToolAnswer(result.value, e)
  }

  /** The answer to a command carries the text the execution put out, or says why there is none, and
      whether it failed. */
  lemma CommandAnswerText(body: string, o: Value, version: string, answer: (seq<Call>, Call) -> Execution,
      past: seq<Call>, call: Call)
    requires o.Obj? && WF(o) && ObjectText(body, o) && CommandsOf(o) == [call]
    ensures var r := Respond(PlanFor(body, version, true), answer, past);
            (r.hasBody <==> Lookup(o.members, "id").Some?) &&
            (r.hasBody ==> IsCommandAnswer(r.body, Lookup(o.members, "id").value, answer(past, call)))
  {
    hide WF, WFMembers, Lookup, TextAt, ObjectAt, ObjectText, CommandIn, PlanFor, Respond, IsErrorAnswer, Tree,
         IsAnswerObject, IsToolAnswer, IsHandshake, IsToolList, HasKeys;
    ObjectMembers(o);
    AnswerFollowsTheTree(body, o, version, true, answer, past);
    CommandMeetsNoError(o.members);
  }

  lemma CommandMeetsNoError(root: seq<Member>)
    requires WFMembers(root) && CommandOf(root).Some?
    ensures ErrorFor(root, true).None? && TextAt(root, "method") == Some("tools/call") &&
            TextAt(root, "jsonrpc") == Some("2.0")
  {
    hide WFMembers, TextAt, ObjectAt, IntAt;
  }

  /** A text that is empty or begins with anything but a brace, blanks aside, is told so. */
  lemma NoBraceIsParseError(w: string, rest: string, version: string, hasExecutor: bool,
      answer: (seq<Call>, Call) -> Execution, past: seq<Call>)
    requires Blank(w) && (rest == "" || (!IsSpace(rest[0]) && rest[0] != '{'))
    ensures var r := Respond(PlanFor(w + rest, version, hasExecutor), answer, past);
            r.status == 400 && r.hasBody &&
            IsErrorAnswer(r.body, Scalar("null"), -32700, "Parse error: " + "Top-level JSON value must be an object")
  {
    hide WF, ErrorBody, IsErrorAnswer, Render, Top, Respond, PlanFor;
    var t := w + rest;
    TopWithoutBrace(w, rest);
    ReasonReads(t, NotAnObject, "Top-level JSON value must be an object", version, hasExecutor, answer, past);
  }

  /** So is a text that goes on behind its object. */
  lemma MoreIsParseError(w: string, o: Value, rest: string, version: string, hasExecutor: bool,
      answer: (seq<Call>, Call) -> Execution, past: seq<Call>)
    requires Blank(w) && o.Obj? && WF(o) && !Blank(rest)
    ensures var r := Respond(PlanFor(w + Render(o) + rest, version, hasExecutor), answer, past);
            r.status == 400 && r.hasBody &&
            IsErrorAnswer(r.body, Scalar("null"), -32700, "Parse error: " + "Unexpected trailing content")
  {
    hide ErrorBody, IsErrorAnswer, Render, SkipWs, Has, Top, Respond, PlanFor;
    var t := w + Render(o) + rest;
    TopTrailing(w, o, rest);
    ReasonReads(t, TrailingContent, "Unexpected trailing content", version, hasExecutor, answer, past);
  }

  lemma ReasonReads(t: string, error: ScanError, reason: string, version: string, hasExecutor: bool,
      answer: (seq<Call>, Call) -> Execution, past: seq<Call>)
    requires Top(t) == Failure(error) && Message(error) == reason
    ensures var r := Respond(PlanFor(t, version, hasExecutor), answer, past);
            r.status == 400 && r.hasBody && IsErrorAnswer(r.body, Scalar("null"), -32700, "Parse error: " + reason)
  {
    hide WF, ErrorBody, IsErrorAnswer, Message, Render, Top;
    WFScalars(0);
    ScalarText("null");
    ErrorReads(Scalar("null"), -32700, "Parse error: " + reason);
  }
}

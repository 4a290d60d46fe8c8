/** What the router promises about its answers and about the commands it runs, for every body. */
module JsonRpcTheorems {
  import opened Bytes
  import opened Decimals
  import opened JsonGrammar
  import opened JsonReader
  import opened JsonFields
  import opened JsonStrings
  import opened JsonRpc

  // ------------------------------------------- printed records as syntax trees

  lemma EntryText(key: string, v: Value)
    requires IsPlainText(key)
    ensures RenderField(Entry(key, v)) == "\"" + (key + ("\":" + Render(v)))
  {
    hide Render, RenderPieces, EscapePieces;
    PlainTextUnchanged(key);
    assert Quoted(EscapePieces(key)) == "\"" + (key + "\"");
    var e := Entry(key, v);
    assert RenderField(e) == Quoted(e.key) + ("" + (":" + ("" + (Render(v) + ""))));
    assert "" + (Render(v) + "") == Render(v);
    assert "\"" + (":" + Render(v)) == "\":" + Render(v);
    assert "\"" + (key + "\"") + (":" + Render(v)) == "\"" + (key + ("\"" + (":" + Render(v))));
  }

  lemma RecordOne(a: Member)
    ensures Render(Record([a])) == "{" + (RenderField(a) + "}")
  {
    RecordShell([a]);
  }

  lemma RecordTwo(a: Member, b: Member)
    requires a.gap == ""
    ensures Render(Record([a, b])) == "{" + (RenderField(a) + ("," + (RenderField(b) + "}")))
  {
    assert [a, b] == [a] + [b];
    MembersCons(a, [b]);
    RecordShell([a, b]);
    RecordShell([b]);
  }

  lemma MembersCons(m: Member, ms: seq<Member>)
    requires m.gap == "" && ms != []
    ensures RenderMembers([m] + ms) == RenderField(m) + ("," + RenderMembers(ms))
  {
    hide RenderField;
    assert ([m] + ms)[1..] == ms;
    assert "" + RenderMembers(ms) == RenderMembers(ms);
  }

  lemma RecordThree(a: Member, b: Member, c: Member)
    requires a.gap == "" && b.gap == ""
    ensures Render(Record([a, b, c])) == "{" +
            (RenderField(a) + ("," + (RenderField(b) + ("," + (RenderField(c) + "}")))))
  {
    RecordOne(c);
    MembersCons(b, [c]);
    MembersCons(a, [b, c]);
    assert [a, b, c] == [a] + [b, c] && [b, c] == [b] + [c];
    RecordShell([a, b, c]);
    RecordShell([c]);
  }

  lemma RecordShell(ms: seq<Member>)
    requires ms != []
    ensures Render(Record(ms)) == "{" + RenderMembers(ms)
    ensures |ms| == 1 ==> RenderMembers(ms) == RenderField(ms[0]) + "}"
  {
    hide RenderField;
    assert "" + RenderMembers(ms) == RenderMembers(ms);
  }

  lemma TextQuoted(s: string)
    ensures Render(TextValue(s)) == "\"" + (Escape(s) + "\"")
  {
  }

  lemma TextText(s: string)
    requires IsPlainText(s)
    ensures Render(TextValue(s)) == "\"" + (s + "\"")
  {
    PlainTextUnchanged(s);
  }

  /** The three-member record of every answer, and its text. */
  function Envelope(id: Value, key: string, payload: Value): Value {
    Record([Entry("jsonrpc", TextValue("2.0")), Entry("id", id), Entry(key, payload)])
  }

  function EnvelopeBody(id: string, key: string, payload: string): string {
    "{" + ("\"jsonrpc\":\"2.0\"," + ("\"id\":" + (id + (",\"" + (key + ("\":" + (payload + "}")))))))
  }

  lemma PlainWords()
    ensures IsPlainText("jsonrpc") && IsPlainText("2.0") && IsPlainText("id") && IsPlainText("result") &&
            IsPlainText("error")
    ensures IsPlainText("code") && IsPlainText("message") && IsPlainText("content") && IsPlainText("isError")
    ensures IsPlainText("type") && IsPlainText("text")
  {
  }

  lemma EnvelopeIsRecord(id: Value, key: string, payload: Value)
    requires IsPlainText(key)
    ensures Render(Envelope(id, key, payload)) == EnvelopeBody(Render(id), key, Render(payload))
  {
    hide Render, RenderField, TextValue, IsPlainText;
    RecordThree(Entry("jsonrpc", TextValue("2.0")), Entry("id", id), Entry(key, payload));
    PlainWords();
    EntryText("jsonrpc", TextValue("2.0"));
    TextText("2.0");
    EntryText("id", id);
    EntryText(key, payload);
    EnvelopeText(Render(id), key, Render(payload));
  }

  /** The fixed text of an envelope, cut at the grammar's tokens and at the code's literals. */
  lemma EnvelopeText(id: string, key: string, payload: string)
    ensures "{" + ("\"" + ("jsonrpc" + ("\":" + ("\"" + ("2.0" + "\"")))) +
              ("," + ("\"" + ("id" + ("\":" + id)) + ("," + ("\"" + (key + ("\":" + payload)) + "}"))))) ==
            EnvelopeBody(id, key, payload)
  {
    assert "\"" + ("jsonrpc" + ("\":" + ("\"" + ("2.0" + "\"")))) + "," == "\"jsonrpc\":\"2.0\",";
    assert "\"" + ("id" + "\":") == "\"id\":";
    var rest := key + ("\":" + (payload + "}"));
    assert "," + ("\"" + (key + ("\":" + payload)) + "}") == ",\"" + rest;
    assert "\"" + ("id" + ("\":" + id)) + (",\"" + rest) == "\"id\":" + (id + (",\"" + rest));
  }

  lemma SuccessBodyIsEnvelope(id: string, result: string)
    ensures SuccessBody(id, result) == EnvelopeBody(id, "result", result)
  {
    assert ",\"" + ("result" + "\":") == ",\"result\":";
    assert ",\"" + ("result" + ("\":" + (result + "}"))) == ",\"result\":" + (result + "}");
  }

  function ErrorValue(code: int, message: string): Value {
    Record([Entry("code", Scalar(DecimalText(code))), Entry("message", TextValue(message))])
  }

  lemma ErrorValueText(code: int, message: string)
    ensures Render(ErrorValue(code, message)) ==
            "{" + ("\"code\":" + (DecimalText(code) + (",\"message\":\"" + (Escape(message) + "\"}"))))
  {
    hide Render, RenderField, IsPlainText, Escape, DecimalText, TextValue;
    PlainWords();
    RecordTwo(Entry("code", Scalar(DecimalText(code))), Entry("message", TextValue(message)));
    EntryText("code", Scalar(DecimalText(code)));
    EntryText("message", TextValue(message));
    TextQuoted(message);
    ScalarText(DecimalText(code));
    ErrorPieces(DecimalText(code), Escape(message));
  }

  lemma ScalarText(run: string)
    ensures Render(Scalar(run)) == run
  {
  }

  lemma ErrorPieces(d: string, e: string)
    ensures "{" + ("\"" + ("code" + ("\":" + d)) +
            ("," + ("\"" + ("message" + ("\":" + ("\"" + (e + "\"")))) + "}"))) ==
            "{" + ("\"code\":" + (d + (",\"message\":\"" + (e + "\"}"))))
  {
    assert "\"" + ("code" + "\":") == "\"code\":";
    assert "," + ("\"" + ("message" + ("\":" + "\""))) == ",\"message\":\"";
    var tail := e + "\"}";
    assert "," + ("\"" + ("message" + ("\":" + ("\"" + (e + "\"")))) + "}") == ",\"message\":\"" + tail;
    assert "\"" + ("code" + ("\":" + d)) + (",\"message\":\"" + tail) == "\"code\":" + (d + (",\"message\":\"" + tail));
  }

  lemma ErrorBodyIsEnvelope(id: string, code: int, message: string)
    ensures ErrorBody(id, code, message) == EnvelopeBody(id, "error", Render(ErrorValue(code, message)))
  {
    hide Render, Escape, DecimalText;
    ErrorValueText(code, message);
    ErrorJoin(id, DecimalText(code) + (",\"message\":\"" + (Escape(message) + "\"}")));
    var d, e := DecimalText(code), Escape(message);
    assert d + (",\"message\":\"" + (e + "\"}")) + "}" == d + (",\"message\":\"" + (e + "\"}}"));
  }

  lemma ErrorJoin(id: string, inner: string)
    ensures EnvelopeBody(id, "error", "{" + ("\"code\":" + inner)) ==
            "{" + ("\"jsonrpc\":\"2.0\"," + ("\"id\":" + (id + (",\"error\":{" + ("\"code\":" + (inner + "}"))))))
  {
    assert ",\"" + ("error" + ("\":" + "{")) == ",\"error\":{";
    var tail := "\"code\":" + (inner + "}");
    assert ",\"" + ("error" + ("\":" + ("{" + ("\"code\":" + inner) + "}"))) == ",\"error\":{" + tail;
  }

  lemma ToolResultIsRecord(e: Execution)
    ensures ToolResultText(e) == Render(ToolResult(e))
  {
    hide Render, RenderField, IsPlainText, Escape, TextValue, PayloadText;
    var p := PayloadText(e);
    var flag := if e.success then FALSE else TRUE;
    var inner := Record([Entry("type", TextValue("text")), Entry("text", TextValue(p))]);
    PlainWords();
    RecordTwo(Entry("type", TextValue("text")), Entry("text", TextValue(p)));
    RecordTwo(Entry("content", List(inner)), Entry("isError", flag));
    EntryText("type", TextValue("text"));
    EntryText("text", TextValue(p));
    EntryText("content", List(inner));
    EntryText("isError", flag);
    TextText("text");
    TextQuoted(p);
    ListText(inner);
    ScalarText("false");
    ScalarText("true");
    ToolPieces(Escape(p), Render(flag));
  }

  lemma ListText(v: Value)
    ensures Render(List(v)) == "[" + (Render(v) + "]")
  {
    var es := [Element(v, "", "")];
    assert RenderElements(es) == Render(v) + ("" + "]");
    assert "" + RenderElements(es) == RenderElements(es);
  }

  lemma ToolPieces(e: string, flag: string)
    ensures "{" + ("\"" + ("content" + ("\":" + ("[" + ("{" + ("\"" + ("type" + ("\":" + ("\"" + ("text" + "\"")))) +
              ("," + ("\"" + ("text" + ("\":" + ("\"" + (e + "\"")))) + "}"))) + "]")))) +
              ("," + ("\"" + ("isError" + ("\":" + flag)) + "}"))) ==
            "{\"content\":[{\"type\":\"text\",\"text\":\"" + (e + ("\"}],\"isError\":" + (flag + "}")))
  {
    var inner := "{\"type\":\"text\",\"text\":\"" + (e + "\"}");
    InnerPieces(e);
    OuterPieces(inner, flag);
    Unnest("{\"content\":[", "{\"type\":\"text\",\"text\":\"", e, "\"}", "],\"isError\":" + (flag + "}"));
    SeamPieces(flag);
  }

  lemma SeamPieces(flag: string)
    ensures "{\"content\":[" + "{\"type\":\"text\",\"text\":\"" == "{\"content\":[{\"type\":\"text\",\"text\":\""
    ensures "\"}" + ("],\"isError\":" + (flag + "}")) == "\"}],\"isError\":" + (flag + "}")
  {
  }

  lemma InnerPieces(e: string)
    ensures "{" + ("\"" + ("type" + ("\":" + ("\"" + ("text" + "\"")))) +
              ("," + ("\"" + ("text" + ("\":" + ("\"" + (e + "\"")))) + "}"))) ==
            "{\"type\":\"text\",\"text\":\"" + (e + "\"}")
  {
  }

  lemma OuterPieces(inner: string, flag: string)
    ensures "{" + ("\"" + ("content" + ("\":" + ("[" + (inner + "]")))) +
            ("," + ("\"" + ("isError" + ("\":" + flag)) + "}"))) ==
            "{\"content\":[" + (inner + ("],\"isError\":" + (flag + "}")))
  {
  }

  lemma Unnest(a: string, b: string, c: string, d: string, e: string)
    ensures a + ((b + (c + d)) + e) == (a + b) + (c + (d + e))
  {
  }

  // ------------------------------------------------- well-formed records

  lemma WFEntry(key: string, v: Value)
    requires WF(v)
    ensures WFField(Entry(key, v)) && Entry(key, v).gap == ""
  {
  }

  lemma {:induction false} WFEntries(ms: seq<Member>)
    requires forall i :: 0 <= i < |ms| ==> WFField(ms[i]) && ms[i].gap == ""
    ensures WFMembers(ms) && WF(Record(ms))
    decreases |ms|
  {
    hide WFField;
    if ms == [] {
    } else {
      WFEntries(ms[1..]);
    }
  }

  lemma WFOne(k: string, v: Value)
    requires WF(v)
    ensures WF(Record([Entry(k, v)]))
  {
    hide WF, WFField, Entry;
    WFEntry(k, v);
    WFEntries([Entry(k, v)]);
  }

  lemma WFTwo(k1: string, v1: Value, k2: string, v2: Value)
    requires WF(v1) && WF(v2)
    ensures WF(Record([Entry(k1, v1), Entry(k2, v2)]))
  {
    hide WF, WFField, Entry;
    WFEntry(k1, v1);
    WFEntry(k2, v2);
    WFEntries([Entry(k1, v1), Entry(k2, v2)]);
  }

  lemma WFThree(k1: string, v1: Value, k2: string, v2: Value, k3: string, v3: Value)
    requires WF(v1) && WF(v2) && WF(v3)
    ensures WF(Record([Entry(k1, v1), Entry(k2, v2), Entry(k3, v3)]))
  {
    hide WF, WFField, Entry;
    WFEntry(k1, v1);
    WFEntry(k2, v2);
    WFEntry(k3, v3);
    WFEntries([Entry(k1, v1), Entry(k2, v2), Entry(k3, v3)]);
  }

  lemma WFFour(k1: string, v1: Value, k2: string, v2: Value, k3: string, v3: Value, k4: string, v4: Value)
    requires WF(v1) && WF(v2) && WF(v3) && WF(v4)
    ensures WF(Record([Entry(k1, v1), Entry(k2, v2), Entry(k3, v3), Entry(k4, v4)]))
  {
    hide WF, WFField, Entry;
    WFEntry(k1, v1);
    WFEntry(k2, v2);
    WFEntry(k3, v3);
    WFEntry(k4, v4);
    WFEntries([Entry(k1, v1), Entry(k2, v2), Entry(k3, v3), Entry(k4, v4)]);
  }

  lemma WFList(v: Value)
    requires WF(v)
    ensures WF(List(v))
  {
    hide WF;
    WFElementsCons(Element(v, "", ""), []);
    WFArray([Element(v, "", "")] + []);
    assert [Element(v, "", "")] + [] == [Element(v, "", "")];
  }

  lemma WFArray(es: seq<Element>)
    requires WFElements(es)
    ensures WF(Arr("", es))
  {
  }

  lemma WFScalars(code: int)
    ensures WF(Scalar(DecimalText(code))) && WF(TRUE) && WF(FALSE) && WF(Scalar("null"))
  {
    hide DecimalText;
    assert WFRun(DecimalText(code));
    assert WFRun("true") && WFRun("false") && WFRun("null");
  }

  lemma WFErrorValue(code: int, message: string)
    ensures WF(ErrorValue(code, message))
  {
    hide WF, TextValue, Entry, Record;
    WFScalars(code);
    WFTwo("code", Scalar(DecimalText(code)), "message", TextValue(message));
  }

  lemma WFToolResult(e: Execution)
    ensures WF(ToolResult(e)) && ToolResult(e).Obj? && WFMembers(ToolResult(e).members)
    ensures Lookup(ToolResult(e).members, "isError") == Some(if e.success then FALSE else TRUE)
  {
    hide WF, TextValue, Entry, List, PayloadText, WFMembers, Lookup;
    WFScalars(0);
    WFTwo("type", TextValue("text"), "text", TextValue(PayloadText(e)));
    var inner := Record([Entry("type", TextValue("text")), Entry("text", TextValue(PayloadText(e)))]);
    WFList(inner);
    WFTwo("content", List(inner), "isError", if e.success then FALSE else TRUE);
    LookupTwo("content", List(inner), "isError", if e.success then FALSE else TRUE, "isError");
  }

  lemma WFInitializeResult(version: string)
    ensures WF(InitializeResult(version)) && InitializeResult(version).Obj? &&
            WFMembers(InitializeResult(version).members)
    ensures Lookup(InitializeResult(version).members, "isError") == None
  {
    hide WF, TextValue, Entry, List, WFMembers, Lookup;
    WFScalars(0);
    WFList(TextValue("windbg.eval"));
    WFTwo("listChanged", FALSE, "availableTools", List(TextValue("windbg.eval")));
    var tools := Record([Entry("listChanged", FALSE), Entry("availableTools", List(TextValue("windbg.eval")))]);
    WFOne("tools", tools);
    WFTwo("name", TextValue("dbgx-mcp"), "version", TextValue(version));
    WFThree("protocolVersion", TextValue("2025-11-25"), "capabilities", Record([Entry("tools", tools)]),
            "serverInfo", Record([Entry("name", TextValue("dbgx-mcp")), Entry("version", TextValue(version))]));
    LookupThree("protocolVersion", TextValue("2025-11-25"), "capabilities", Record([Entry("tools", tools)]),
                "serverInfo", Record([Entry("name", TextValue("dbgx-mcp")), Entry("version", TextValue(version))]),
                  "isError");
  }

  lemma WFToolsListResult(name: string)
    ensures WF(ToolsListResult(name)) && ToolsListResult(name).Obj? && WFMembers(ToolsListResult(name).members)
    ensures Lookup(ToolsListResult(name).members, "isError") == None
  {
    hide WF, TextValue, Entry, List, WFMembers, Lookup;
    WFScalars(0);
    WFTwo("type", TextValue("string"), "description", TextValue("WinDbg command to execute"));
    WFTwo("type", TextValue("integer"), "description", TextValue("Max lines to return (default 100)"));
    WFTwo("type", TextValue("string"), "description", TextValue("Optional substring filter"));
    var c, m, p := Described("string", "WinDbg command to execute"),
      Described("integer", "Max lines to return (default 100)"),
                   Described("string", "Optional substring filter");
    WFThree("command", c, "max_lines", m, "pattern", p);
    var properties := Record([Entry("command", c), Entry("max_lines", m), Entry("pattern", p)]);
    WFList(TextValue("command"));
    WFFour("type", TextValue("object"), "properties", properties, "required", List(TextValue("command")),
      "additionalProperties", FALSE);
    var schema := Record([Entry("type", TextValue("object")), Entry("properties", properties),
                          Entry("required", List(TextValue("command"))), Entry("additionalProperties", FALSE)]);
    var d := TextValue("Execute WinDbg command. Results returned as filtered/truncated text.");
    WFThree("name", TextValue(name), "description", d, "inputSchema", schema);
    var tool := Record([Entry("name", TextValue(name)), Entry("description", d), Entry("inputSchema", schema)]);
    WFList(tool);
    WFOne("tools", List(tool));
    LookupOne("tools", List(tool), "isError");
  }

  // ----------------------------------------------- what an answer contains

  /** The id an answer must carry: the raw id of the request, or `null`. */
  function RequestId(body: string): string {
    match Fields(body)
    case Failure(_) => "null"
    case Success(root) => IdOr(TryGetRaw(root, "id"))
  }

  /** The request was understood and its method did not fail. */
  predicate DispatchOk(body: string, version: string, hasExecutor: bool) {
    Fields(body).Success? &&
    var root := Fields(body).value;
    TryGetString(root, "jsonrpc") == Some("2.0") && TryGetString(root, "method").Some? &&
    !DispatchMethod(TryGetString(root, "method").value, root, version, hasExecutor).Failed?
  }

  lemma RequestIdIsValue(body: string) returns (v: Value)
    ensures WF(v) && Render(v) == RequestId(body)
  {
    v := Scalar("null");
    WFScalars(0);
    if Fields(body).Success? && "id" in Fields(body).value {
      var o := Top(body).value;
      TopSound(body);
      BindIsLookup(map[], o.members, "id");
      v := Lookup(o.members, "id").value;
      ValueIsTrimmed(v);
    }
  }

  lemma EntryKey(key: string, v: Value)
    ensures WFPieces(Entry(key, v).key) && Decode(Entry(key, v).key) == key
  {
    DecodeEscape(key);
  }

  lemma LookupCons(m: Member, ms: seq<Member>, key: string)
    requires WFMembers([m] + ms) && WFMembers(ms) && WFPieces(m.key)
    ensures Lookup([m] + ms, key) ==
            (if Lookup(ms, key).Some? then Lookup(ms, key) else if Decode(m.key) == key then Some(m.value) else None)
  {
    assert ([m] + ms)[1..] == ms;
  }

  lemma LookupOne(k: string, v: Value, key: string)
    requires WF(v)
    ensures WFMembers([Entry(k, v)])
    ensures Lookup([Entry(k, v)], key) == if k == key then Some(v) else None
  {
    hide WF, Entry, Decode;
    WFOne(k, v);
    EntryKey(k, v);
    assert [Entry(k, v)] == [Entry(k, v)] + [];
    WFRecord([Entry(k, v)]);
    EmptyWF();
    LookupCons(Entry(k, v), [], key);
    EntryFields(k, v);
  }

  lemma EntryFields(k: string, v: Value)
    ensures Entry(k, v).value == v && Entry(k, v).gap == ""
  {
  }

  lemma WFRecord(ms: seq<Member>)
    ensures WF(Record(ms)) <==> WFMembers(ms)
  {
  }

  lemma LookupTwo(k1: string, v1: Value, k2: string, v2: Value, key: string)
    requires WF(v1) && WF(v2)
    ensures WFMembers([Entry(k1, v1), Entry(k2, v2)])
    ensures Lookup([Entry(k1, v1), Entry(k2, v2)], key) ==
            if k2 == key then Some(v2) else if k1 == key then Some(v1) else None
  {
    hide WF, Entry, Decode, Lookup, WFMembers;
    WFTwo(k1, v1, k2, v2);
    WFRecord([Entry(k1, v1), Entry(k2, v2)]);
    EntryKey(k1, v1);
    EntryFields(k1, v1);
    LookupOne(k2, v2, key);
    assert [Entry(k1, v1), Entry(k2, v2)] == [Entry(k1, v1)] + [Entry(k2, v2)];
    LookupCons(Entry(k1, v1), [Entry(k2, v2)], key);
  }

  lemma LookupThree(k1: string, v1: Value, k2: string, v2: Value, k3: string, v3: Value, key: string)
    requires WF(v1) && WF(v2) && WF(v3)
    ensures WFMembers([Entry(k1, v1), Entry(k2, v2), Entry(k3, v3)])
    ensures Lookup([Entry(k1, v1), Entry(k2, v2), Entry(k3, v3)], key) ==
            if k3 == key then Some(v3) else if k2 == key then Some(v2) else if k1 == key then Some(v1) else None
  {
    hide WF, Entry, Decode, Lookup, WFMembers;
    WFThree(k1, v1, k2, v2, k3, v3);
    WFRecord([Entry(k1, v1), Entry(k2, v2), Entry(k3, v3)]);
    EntryKey(k1, v1);
    EntryFields(k1, v1);
    LookupTwo(k2, v2, k3, v3, key);
    assert [Entry(k1, v1), Entry(k2, v2), Entry(k3, v3)] == [Entry(k1, v1)] + [Entry(k2, v2), Entry(k3, v3)];
    LookupCons(Entry(k1, v1), [Entry(k2, v2), Entry(k3, v3)], key);
  }

  /** An envelope is read back as the record it prints. */
  lemma EnvelopeTop(id: Value, key: string, payload: Value)
    requires WF(id) && WF(payload) && IsPlainText(key)
    ensures WFMembers(Envelope(id, key, payload).members)
    ensures Top(EnvelopeBody(Render(id), key, Render(payload))) == Success(Envelope(id, key, payload))
  {
    hide WF, Render, TextValue, Top, Entry, WFMembers;
    var t, o := EnvelopeBody(Render(id), key, Render(payload)), Envelope(id, key, payload);
    EnvelopeIsRecord(id, key, payload);
    WFThree("jsonrpc", TextValue("2.0"), "id", id, key, payload);
    WFRecord(o.members);
    assert t == "" + Render(o) + "" && Blank("");
    GrammarEquivalence(t, o);
  }

  /** An envelope is read back as its three fields and nothing else. */
  lemma EnvelopeFields(id: Value, key: string, payload: Value)
    requires WF(id) && WF(payload) && IsPlainText(key) && key != "id" && key != "jsonrpc"
    ensures Fields(EnvelopeBody(Render(id), key, Render(payload))) ==
            Success(map["jsonrpc" := "\"2.0\"", "id" := Render(id), key := Render(payload)])
  {
    hide WF, Render, TextValue, Lookup, Bind, Top, Entry, WFMembers;
    var t, o := EnvelopeBody(Render(id), key, Render(payload)), Envelope(id, key, payload);
    EnvelopeTop(id, key, payload);
    var m := Bind(map[], o.members);
    forall k ensures (k in m <==> k in {"jsonrpc", "id", key}) &&
                     (k == "jsonrpc" ==> m[k] == "\"2.0\"") && (k == "id" ==> m[k] == Render(id)) &&
                       (k == key ==> m[k] == Render(payload)) {
      BindIsLookup(map[], o.members, k);
      LookupThree("jsonrpc", TextValue("2.0"), "id", id, key, payload, k);
      PlainWords();
      TextText("2.0");
      assert "\"" + ("2.0" + "\"") == "\"2.0\"";
    }
    assert Fields(t) == Success(m);
    var expected := map["jsonrpc" := "\"2.0\"", "id" := Render(id), key := Render(payload)];
    assert forall k :: k in m <==> k in expected;
    assert forall k :: k in m ==> m[k] == expected[k];
    assert m == expected;
  }

  /** The object a method puts under `result` when it needs no command. */
  lemma ResultPayload(name: string, root: FieldMap, version: string, hasExecutor: bool) returns (v: Value)
    requires DispatchMethod(name, root, version, hasExecutor).Done?
    ensures WF(v) && v.Obj? && Render(v) == DispatchMethod(name, root, version, hasExecutor).result
    ensures WFMembers(v.members) && Lookup(v.members, "isError") == None
  {
    hide WF, Lookup, WFMembers, Render, InitializeResult, ToolsListResult, ToolsCall;
    if name == "notifications/initialized" || name == "initialized" {
      v := Record([]);
      EmptyObject();
    } else if name == "initialize" {
      v := InitializeResult(version);
      WFInitializeResult(version);
    } else {
      v := ToolsListResult("windbg.eval");
      WFToolsListResult("windbg.eval");
    }
  }

  lemma EmptyObject()
    ensures WF(Record([])) && WFMembers(Record([]).members) && Render(Record([])) == "{}" &&
            Lookup(Record([]).members, "isError") == None
  {
    assert "" + "}" == "}";
  }

  /** What a result object says under `isError`: nothing unless a command ran. */
  ghost function ErrorFlag(plan: Plan, answer: (seq<Call>, Call) -> Execution, past: seq<Call>): Option<Value> {
    match plan
    case Reply(_) => None
    case Run(call, _) => Some(if answer(past, call).success then FALSE else TRUE)
  }

  /** An envelope around an id: a result object with the given flag when all went well, else an error. */
  ghost predicate IsAnswer(text: string, id: string, ok: bool, flag: Option<Value>, key: string, payload: Value) {
    WF(payload) && text == EnvelopeBody(id, key, Render(payload)) &&
    key == (if ok then "result" else "error") &&
    (ok ==> payload.Obj? && WFMembers(payload.members) && Lookup(payload.members, "isError") == flag)
  }

  /** Whatever is answered with a body is an envelope around the request's id: a result object
      when dispatch went well, whose `isError` says how the command ended, else an error. */
  lemma AnswerShape(body: string, version: string, hasExecutor: bool, answer: (seq<Call>, Call) -> Execution,
      past: seq<Call>)
      returns (key: string, payload: Value)
    ensures var plan := PlanFor(body, version, hasExecutor);
            var r := Respond(plan, answer, past);
            r.hasBody ==>
              IsAnswer(r.body, RequestId(body), DispatchOk(body, version, hasExecutor),
                ErrorFlag(plan, answer, past), key, payload)
  {
    hide WF, Lookup, WFMembers, Render, TryGetString, TryGetRaw, Fields, DispatchMethod, EnvelopeBody, SuccessBody,
         ErrorBody, ToolResult, ToolResultText, Message, ErrorValue;
    key, payload := "error", Scalar("null");
    var plan := PlanFor(body, version, hasExecutor);
    if Respond(plan, answer, past).hasBody {
      if DispatchOk(body, version, hasExecutor) {
        key := "result";
        var root := Fields(body).value;
        var name := TryGetString(root, "method").value;
        if plan.Run? {
          payload := ToolResult(answer(past, plan.call));
          WFToolResult(answer(past, plan.call));
          ToolResultIsRecord(answer(past, plan.call));
        } else {
          payload := ResultPayload(name, root, version, hasExecutor);
        }
        SuccessBodyIsEnvelope(RequestId(body), Render(payload));
      } else {
        var p := ProblemOf(body, version, hasExecutor);
        payload := ErrorValue(p.Code(), p.Text());
        WFErrorValue(p.Code(), p.Text());
        ErrorBodyIsEnvelope(RequestId(body), p.Code(), p.Text());
      }
    }
  }

  /** The failure behind an answer that is no success. */
  lemma ProblemOf(body: string, version: string, hasExecutor: bool) returns (p: Problem)
    requires var plan := PlanFor(body, version, hasExecutor); plan.Reply? && plan.result.hasBody
    requires !DispatchOk(body, version, hasExecutor)
    ensures PlanFor(body, version, hasExecutor).result.body == ErrorBody(RequestId(body), p.Code(), p.Text())
  {
    hide TryGetString, TryGetRaw, Fields, DispatchMethod, ErrorBody, Message, SuccessBody;
    match Fields(body)
    case Failure(error) => p := ParseError(error);
    case Success(root) =>
      if TryGetString(root, "jsonrpc") != Some("2.0") {
        p := NotVersion2;
      } else if TryGetString(root, "method").None? {
        p := MissingMethod;
      } else {
        p := DispatchMethod(TryGetString(root, "method").value, root, version, hasExecutor).problem;
      }
  }

  // ------------------------------------------------------- main theorems

  ghost predicate HasAnswerFields(text: string, id: string, key: string) {
    match Fields(text)
    case Failure(_) => false
    case Success(fields) => fields.Keys == {"jsonrpc", "id", key} && fields["jsonrpc"] == "\"2.0\"" &&
                            fields["id"] == id
  }

  /** Every answer with a body is one JSON object with exactly the keys `jsonrpc`, `id` and one of
      `result` and `error`, and its id is the raw id of the request byte for byte. */
  lemma ResponseWellFormed(body: string, version: string, hasExecutor: bool, answer: (seq<Call>, Call) -> Execution,
      past: seq<Call>)
    ensures var r := Respond(PlanFor(body, version, hasExecutor), answer, past);
            r.hasBody ==> HasAnswerFields(r.body, RequestId(body),
              if DispatchOk(body, version, hasExecutor) then "result" else "error")
  {
    hide WF, Lookup, WFMembers, Render, Fields, EnvelopeBody, PlanFor, Respond, DispatchOk, RequestId, ErrorFlag,
         IsPlainText;
    var r := Respond(PlanFor(body, version, hasExecutor), answer, past);
    var key, payload := AnswerShape(body, version, hasExecutor, answer, past);
    if r.hasBody {
      var id := RequestIdIsValue(body);
      PlainWords();
      EnvelopeFields(id, key, payload);
    }
  }

  ghost predicate HasId(body: string) {
    match Fields(body) case Success(root) => "id" in root case Failure(_) => false
  }

  /** The three fields of a good answer. */
  ghost function ResultFields(id: string, result: string): FieldMap {
    map["jsonrpc" := "\"2.0\"", "id" := id, "result" := result]
  }

  /** A request that runs a command is answered with a body exactly if it has an id, and then the
      body reads back as the id and the result of that very command. */
  lemma CommandAnswer(body: string, version: string, answer: (seq<Call>, Call) -> Execution, past: seq<Call>,
      call: Call)
    requires CallsOf(PlanFor(body, version, true)) == [call]
    ensures var r := Respond(PlanFor(body, version, true), answer, past);
            (r.hasBody <==> HasId(body)) && r.status == (if HasId(body) then 200 else 202) &&
            (r.hasBody ==>
              Fields(r.body) == Success(ResultFields(RequestId(body), Render(ToolResult(answer(past, call))))))
  {
    hide TryGetString, DispatchMethod, SuccessBody, ErrorBody, ToolResult, ToolResultText, Render, WF, EnvelopeBody,
         RequestId, WFMembers, Lookup, Message, Trim;
    RunIdIsRequestId(body, version);
    var e := answer(past, call);
    var id := RequestIdIsValue(body);
    SuccessBodyIsEnvelope(RequestId(body), Render(ToolResult(e)));
    ToolResultIsRecord(e);
    WFToolResult(e);
    PlainWords();
    EnvelopeFields(id, "result", ToolResult(e));
  }

  lemma RunIdIsRequestId(body: string, version: string)
    requires PlanFor(body, version, true).Run?
    ensures var id := PlanFor(body, version, true).id; IdOr(id) == RequestId(body) && (id.Some? <==> HasId(body))
  {
    hide TryGetString, DispatchMethod, SuccessBody, ErrorBody, Trim, Message;
  }

  /** A version 2.0 request without an id whose method is missing or did not fail. */
  ghost predicate IsNotification(body: string, ok: bool) {
    match Fields(body)
    case Failure(_) => false
    case Success(root) =>
      "id" !in root && TryGetString(root, "jsonrpc") == Some("2.0") && (TryGetString(root, "method").None? || ok)
  }

  lemma DispatchIsNoParse(name: string, root: FieldMap, version: string, hasExecutor: bool)
    ensures var o := DispatchMethod(name, root, version, hasExecutor); o.Failed? ==> !o.problem.ParseError?
  {
    hide ToolsCall, InitializeResult, ToolsListResult, Render;
  }

  /** An answer has no body exactly for a notification, and then its status is 202. With a body the
      status is 400 if the request does not parse, else 200, whatever failed. */
  lemma SilentExactlyForNotifications(body: string, version: string, hasExecutor: bool,
      answer: (seq<Call>, Call) -> Execution, past: seq<Call>)
    ensures var r := Respond(PlanFor(body, version, hasExecutor), answer, past);
            (!r.hasBody <==> IsNotification(body, DispatchOk(body, version, hasExecutor))) &&
            (!r.hasBody ==> r.body == "") &&
            r.status == (if !r.hasBody then 202 else if Fields(body).Failure? then 400 else 200)
  {
    hide TryGetString, Fields, DispatchMethod, ErrorBody, Message, SuccessBody, Trim;
    if Fields(body).Success? && TryGetString(Fields(body).value, "method").Some? {
      DispatchIsNoParse(TryGetString(Fields(body).value, "method").value, Fields(body).value, version, hasExecutor);
    }
  }
}

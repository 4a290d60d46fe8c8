/** Serving clients: from the chunks of a connection to the executor and back. */
module Service {
  import opened Bytes
  import opened Http
  import opened HttpFraming
  import opened HttpFramingTheorems
  import opened HttpRoundTrip
  import opened JsonGrammar
  import opened JsonFields
  import opened JsonStrings
  import opened JsonRpc
  import opened JsonRpcTheorems
  import opened CommandDelivery
  import opened AnswerContents
  import opened Extension
  import opened ExtensionTheorems

  /** The answer to a connection that delivered no request. */
  function BadRequest(error: HttpError): HttpResponse {
    HttpResponse(400, JSON_CONTENT_TYPE, "{\"error\":\"" + (error.Text() + "\"}"), true)
  }

  /** The visits a list of connections amounts to: the requests received, in order. */
  ghost function Visits(streams: seq<seq<string>>, version: Option<string>): seq<Visit> {
    if streams == [] then []
    else
      (match Receive("", streams[0]) case Success(request) => [Visit(request, version)] case Failure(_) => []) +
      Visits(streams[1..], version)
  }

  /** The response to one stream by an executor that has run the given commands before. */
  ghost function Reply(stream: seq<string>, version: Option<string>, answer: (seq<Call>, Call) -> Execution,
      past: seq<Call>): HttpResponse {
    var r := Receive("", stream);
    if r.Success? then ResponseFor(r.value, version, answer, past) else BadRequest(r.error)
  }

  /** The commands one stream runs. */
  ghost function CallsOfOne(stream: seq<string>, version: Option<string>): seq<Call> {
    var r := Receive("", stream);
    if r.Success? then CallsFor(r.value, version) else []
  }

  /** One accepted connection: read a request, answer it, send the answer. */
  method ServeClient(client: Connection, state: ExtensionState)
    requires state.Valid()
    modifies client`incoming, client`sent, state`nextLocalTraceId, state`log, state`lines, state.Touches()
    ensures state.Valid()
    ensures var r := Receive("", old(client.incoming));
            if r.Success? then
              state.log == old(state.log) + StoryOf(r.value, state.Version(), old(state.nextLocalTraceId) as nat) &&
              state.nextLocalTraceId as nat == NextId(old(state.nextLocalTraceId) as nat, r.value.body)
            else state.log == old(state.log) && state.nextLocalTraceId == old(state.nextLocalTraceId)
    ensures state.Calls() == old(state.Calls()) + CallsOfOne(old(client.incoming), state.Version())
    ensures Delivered(client, old(client.sent),
              Reply(old(client.incoming), state.Version(), state.Answer(), old(state.Calls())))
  {
    hide Receive, StoryOf, CallsFor, ResponseFor, Block, ResponseLines, IsLocal;
    var received := ReceiveRequest(client);
    var response;
    if received.Success? {
      response := state.HandleRequest(received.value);
    } else {
      response := BadRequest(received.error);
    }
    var text := BuildHttpResponseText(response);
    var ok := SendAll(client, text);
  }

  /** What a client has been sent: a part of the response from its beginning, and all of it if
      every send took something. */
  ghost predicate Delivered(client: Connection, before: string, response: HttpResponse)
    reads client
  {
    before <= client.sent <= before + WireText(response) &&
    (client.AlwaysTakes() && |WireText(response)| < 0x8000_0000 ==> client.sent == before + WireText(response))
  }

  ghost function Streams(clients: seq<Connection>): seq<seq<string>>
    reads clients
  {
    seq(|clients|, i requires 0 <= i < |clients| reads clients => clients[i].incoming)
  }

  /** The commands the requests among some streams run, one stream after the other. */
  ghost function CallsOfRun(streams: seq<seq<string>>, version: Option<string>): seq<Call> {
    if streams == [] then []
    else
      CallsOfRun(streams[..|streams| - 1], version) + CallsOfOne(streams[|streams| - 1], version)
  }

  ghost function SentTo(clients: seq<Connection>): seq<string>
    reads clients
  {
    seq(|clients|, i requires 0 <= i < |clients| reads clients => clients[i].sent)
  }

  /** The first `n` clients have been sent the responses their streams get, one after the other. */
  ghost predicate Served(clients: seq<Connection>, sent: seq<string>, streams: seq<seq<string>>,
      version: Option<string>, answer: (seq<Call>, Call) -> Execution, past: seq<Call>, n: nat)
    requires n <= |clients| == |sent| == |streams|
    reads clients
  {
    forall i :: 0 <= i < n ==> ServedAt(clients[i], sent[i], streams, version, answer, past, i)
  }

  ghost predicate ServedAt(client: Connection, sent: string, streams: seq<seq<string>>,
      version: Option<string>, answer: (seq<Call>, Call) -> Execution, past: seq<Call>, i: nat)
    requires i < |streams|
    reads client
  {
    Delivered(client, sent, Reply(streams[i], version, answer, past + CallsOfRun(streams[..i], version)))
  }

  /** The worker's loop over the connections it accepts: the log of the run is the journal of the
      requests that arrived, the commands run are theirs in order, and each client is sent the
      response its request gets after those before it. */
  method ServeAll(clients: seq<Connection>, state: ExtensionState)
    requires state.Valid()
    requires forall i, j :: 0 <= i < j < |clients| ==> clients[i] != clients[j]
    modifies clients, state`nextLocalTraceId, state`log, state`lines, state.Touches()
    ensures state.Valid()
    ensures state.log == old(state.log) +
            Journal(Visits(old(Streams(clients)), state.Version()), old(state.nextLocalTraceId) as nat)
    ensures state.Calls() == old(state.Calls()) + CallsOfRun(old(Streams(clients)), state.Version())
    ensures Served(clients, old(SentTo(clients)), old(Streams(clients)), state.Version(), state.Answer(),
              old(state.Calls()), |clients|)
  {
    hide Receive, StoryOf, NextId, Journal, Visits, CallsOfRun, CallsOfOne, Delivered, Reply, LinesTell, StagesIn,
         ServedAt, ExtensionState.Valid, ExtensionState.Calls, ExtensionState.Answer, ExtensionState.Version;
    ghost var streams, version, past := Streams(clients), state.Version(), state.Calls();
    ghost var journal := Journal(Visits(streams, version), state.nextLocalTraceId as nat);
    assert streams[0..] == streams && streams[..0] == [];
    NoCalls(version);
    for i := 0 to |clients|
      invariant state.Valid() && state.Touches() == old(state.Touches())
      invariant state.Version() == version && state.Answer() == old(state.Answer())
      invariant forall j :: i <= j < |clients| ==>
                clients[j].incoming == streams[j] && clients[j].sent == old(clients[j].sent)
      invariant old(state.log) + journal ==
                state.log + Journal(Visits(streams[i..], version), state.nextLocalTraceId as nat)
      invariant state.Calls() == past + CallsOfRun(streams[..i], version)
      invariant Served(clients, old(SentTo(clients)), streams, version, state.Answer(), past, i)
    {
      NextVisit(streams[i..], version, state.nextLocalTraceId as nat, state.log);
      NextCalls(streams, i, version, past);
      assert streams[i..][0] == streams[i] && streams[i..][1..] == streams[i + 1..];
      ServeNext(clients[i], state, streams, past, i);
    }
    assert streams[|clients|..] == [] && streams[..|clients|] == streams;
    NoVisit(version, state.nextLocalTraceId as nat);
  }

  /** One turn of that loop. */
  method ServeNext(client: Connection, state: ExtensionState, ghost streams: seq<seq<string>>, ghost past: seq<Call>,
      ghost i: nat)
    requires state.Valid() && i < |streams| && client.incoming == streams[i]
    requires state.Calls() == past + CallsOfRun(streams[..i], state.Version())
    modifies client`incoming, client`sent, state`nextLocalTraceId, state`log, state`lines, state.Touches()
    ensures state.Valid()
    ensures var r := Receive("", streams[i]);
            if r.Success? then
              state.log == old(state.log) + StoryOf(r.value, state.Version(), old(state.nextLocalTraceId) as nat) &&
              state.nextLocalTraceId as nat == NextId(old(state.nextLocalTraceId) as nat, r.value.body)
            else state.log == old(state.log) && state.nextLocalTraceId == old(state.nextLocalTraceId)
    ensures state.Calls() == old(state.Calls()) + CallsOfOne(streams[i], state.Version())
    ensures ServedAt(client, old(client.sent), streams, state.Version(), state.Answer(), past, i)
  {
    hide Receive, StoryOf, NextId, CallsOfRun, CallsOfOne, Delivered, Reply,
         ExtensionState.Valid, ExtensionState.Calls, ExtensionState.Answer, ExtensionState.Version;
    ServeClient(client, state);
  }

  lemma NoCalls(version: Option<string>)
    ensures CallsOfRun([], version) == []
  {
  }

  lemma NextCalls(streams: seq<seq<string>>, i: nat, version: Option<string>, past: seq<Call>)
    requires i < |streams|
    ensures past + CallsOfRun(streams[..i + 1], version) ==
            past + CallsOfRun(streams[..i], version) + CallsOfOne(streams[i], version)
  {
    hide CallsOfOne;
    assert streams[..i + 1][..i] == streams[..i];
  }

  lemma NoVisit(version: Option<string>, next: nat)
    ensures Journal(Visits([], version), next) == []
  {
  }

  /** The journal of the connections to come, by what the first of them delivers. */
  lemma NextVisit(streams: seq<seq<string>>, version: Option<string>, next: nat, log: seq<Mark>)
    requires streams != []
    ensures log + Journal(Visits(streams, version), next) ==
            var r := Receive("", streams[0]);
            if r.Success? then log + StoryOf(r.value, version, next) +
              Journal(Visits(streams[1..], version), NextId(next, r.value.body))
            else log + Journal(Visits(streams[1..], version), next)
  {
    hide Receive, StoryOf, NextId;
    var rest := Visits(streams[1..], version);
    match Receive("", streams[0])
    case Success(request) =>
      assert ([Visit(request, version)] + rest)[1..] == rest;
    case Failure(_) =>
      assert [] + rest == rest;
  }

  // ------------------------------------------------------------ end to end

  /** A request whose syntax tree asks for a command, posted by any client in any spelling and any
      chunks, makes the executor run exactly that command with exactly its options, once. The
      response has a body exactly if the request has an id; then the response text splits into a body
      that reads back as that id and the result of the command. */
  lemma CommandEndToEnd(chunks: seq<string>, httpVersion: string, fields: seq<Field>, body: string, more: string,
      o: Value, call: Call, version: string, answer: (seq<Call>, Call) -> Execution, past: seq<Call>)
    requires GoodFirstLine("POST", "/mcp", httpVersion) && GoodFields(fields)
    requires fields != [] && AnnouncedLength(fields) == Some(|body|) && LetThrough(HeaderMap(fields[..|fields| - 1]))
    requires Stream(chunks) == WrittenRequest("POST", "/mcp", httpVersion, fields, body) + more &&
             |Stream(chunks)| <= MAX_REQUEST_BYTES
    requires o.Obj? && WF(o) && ObjectText(body, o) && CommandsOf(o) == [call]
    ensures Receive("", chunks).Success?
    ensures var request := Receive("", chunks).value;
            CallsFor(request, Some(version)) == [call] &&
            IsCommandResponse(ResponseFor(request, Some(version), answer, past), body, IdOf(o), answer(past, call))
  {
    hide Receive, GoodFirstLine, GoodFields, AnnouncedLength, WrittenRequest, Stream, HeaderMap, WF, ObjectText,
         CommandsOf, PlanFor, Respond, IsOriginAllowed, IsCommandResponse;
    RequestRoundTrip("POST", "/mcp", httpVersion, fields, body, more, chunks);
    RefusedExactly(Receive("", chunks).value);
    CommandsFollowTheTree(body, o, version);
    CommandResponse(body, o, version, answer, past, call);
  }

  /** In particular a command printed by `Escape` arrives byte for byte, whatever else the request
      holds. */
  lemma EscapedCommandEndToEnd(chunks: seq<string>, httpVersion: string, fields: seq<Field>, body: string, more: string,
      o: Value, c: string, version: string, answer: (seq<Call>, Call) -> Execution, past: seq<Call>)
    requires GoodFirstLine("POST", "/mcp", httpVersion) && GoodFields(fields)
    requires fields != [] && AnnouncedLength(fields) == Some(|body|) && LetThrough(HeaderMap(fields[..|fields| - 1]))
    requires Stream(chunks) == WrittenRequest("POST", "/mcp", httpVersion, fields, body) + more &&
             |Stream(chunks)| <= MAX_REQUEST_BYTES
    requires o.Obj? && WF(o) && ObjectText(body, o) && c != "" && CarriesCommand(o, Str(EscapePieces(c)))
    ensures Receive("", chunks).Success?
    ensures var request := Receive("", chunks).value;
            var calls := CallsFor(request, Some(version));
            |calls| == 1 && calls[0].command == c &&
            IsCommandResponse(ResponseFor(request, Some(version), answer, past), body, IdOf(o), answer(past, calls[0]))
  {
    hide Receive, GoodFirstLine, GoodFields, AnnouncedLength, WrittenRequest, Stream, HeaderMap, WF, ObjectText,
         CarriesCommand, CommandsOf, EscapePieces, PlanFor, ResponseFor, CallsFor, IsCommandResponse, LetThrough;
    EscapedCommandArrives(body, o, version, c);
    CommandsFollowTheTree(body, o, version);
    CommandEndToEnd(chunks, httpVersion, fields, body, more, o, CommandsOf(o)[0], version, answer, past);
  }

  /** The id a request carries in its tree. */
  ghost function IdOf(o: Value): Option<Value>
    requires o.Obj? && WF(o)
  {
    Lookup(o.members, "id")
  }

  /** The response to a command with a given result: its status, whether it has a body, what the text
      sent reads back as, and what the body does: the id, and the text and flag the execution calls for. */
  ghost predicate IsCommandResponse(response: HttpResponse, body: string, id: Option<Value>, e: Execution) {
    (response.hasBody <==> id.Some?) && response.status == (if id.Some? then 200 else 202) &&
    IsMessage(WireText(response), response) &&
    (id.Some? ==>
      IsCommandAnswer(response.body, id.value, e) &&
      Fields(response.body) == Success(ResultFields(RequestId(body), Render(ToolResult(e)))))
  }

  lemma CommandResponse(body: string, o: Value, version: string, answer: (seq<Call>, Call) -> Execution,
      past: seq<Call>, call: Call)
    requires o.Obj? && WF(o) && ObjectText(body, o) && CommandsOf(o) == [call]
    ensures IsCommandResponse(Wrapped(Respond(PlanFor(body, version, true), answer, past)), body, IdOf(o),
              answer(past, call))
  {
    hide PlanFor, Respond, Fields, HasId, ResultFields, RequestId, Render, ToolResult, IsMessage, WireText, WF,
         ObjectText, CommandsOf, Lookup, IsCommandAnswer;
    CommandsFollowTheTree(body, o, version);
    CommandAnswer(body, version, answer, past, call);
    CommandAnswerText(body, o, version, answer, past, call);
    PlainType();
    ResponseReadsBack(Wrapped(Respond(PlanFor(body, version, true), answer, past)));
  }

  lemma PlainType()
    ensures '\r' !in JSON_CONTENT_TYPE
  {
  }

  /** Whatever a client is answered, the text sent reads back as that response. */
  lemma ReplyReadsBack(stream: seq<string>, version: Option<string>, answer: (seq<Call>, Call) -> Execution,
      past: seq<Call>)
    ensures var reply := Reply(stream, version, answer, past); IsMessage(WireText(reply), reply)
  {
    hide Receive, PlanFor, Respond, Refused, IsMessage, WireText, HttpError.Text;
    PlainType();
    ResponseReadsBack(Reply(stream, version, answer, past));
  }

  /** What a client is told of a request that did not arrive. */
  ghost function Reason(error: HttpError): string {
    if error == MalformedRequestLine then "Malformed request line"
    else if error == InvalidRequestLine then "Invalid request line"
    else if error == MalformedHeader then "Malformed header"
    else if error == TooLarge then "Request is too large"
    else if error == InvalidContentLength then "Invalid Content-Length"
    else "Connection closed before full request was received"
  }

  /** A connection that delivers no request is answered status 400, and what failed. */
  lemma BadRequestReads(error: HttpError)
    ensures var r := BadRequest(error); var ms := Tree(r.body);
            r.status == 400 && r.hasBody && ms.Some? && HasKeys(ms.value, {"error"}) &&
            TextAt(ms.value, "error") == Some(Reason(error))
  {
    hide Top, WFMembers, WF, HasKeys, Lookup, Entry, TextValue, Render, HttpError.Text, Reason;
    var text := error.Text();
    ErrorTexts(error);
    ReadOne("error", TextValue(text));
    TextOf([Entry("error", TextValue(text))], "error", text);
    ErrorRecord(text);
    var body := BadRequest(error).body;
    assert body == "" + Render(Record([Entry("error", TextValue(text))])) + "" && Blank("");
    GrammarEquivalence(body, Record([Entry("error", TextValue(text))]));
  }

  lemma ErrorRecord(text: string)
    requires IsPlainText(text)
    ensures Render(Record([Entry("error", TextValue(text))])) == "{\"error\":\"" + (text + "\"}")
  {
    hide Render, RenderField, Entry, TextValue, IsPlainText;
    PlainWords();
    RecordOne(Entry("error", TextValue(text)));
    EntryText("error", TextValue(text));
    TextText(text);
    assert "{" + ("\"" + ("error" + ("\":" + "\""))) == "{\"error\":\"";
  }

  lemma ErrorTexts(error: HttpError)
    ensures error.Text() == Reason(error) && IsPlainText(error.Text())
  {
    hide IsPlainText;
    LineTexts();
    RequestTexts();
    ClosedText();
  }

  lemma LineTexts()
    ensures IsPlainText("Malformed request line") && IsPlainText("Invalid request line") &&
            IsPlainText("Malformed header")
  {
  }

  lemma RequestTexts()
    ensures IsPlainText("Request is too large") && IsPlainText("Invalid Content-Length")
  {
  }

  lemma ClosedText()
    ensures IsPlainText("Connection closed before full request was received")
  {
    hide IsPlainText;
    ClosedParts();
    PlainConcat("Connection closed before ", "full request was received");
    assert "Connection closed before full request was received" ==
           "Connection closed before " + "full request was received";
  }

  lemma ClosedParts()
    ensures IsPlainText("Connection closed before ") && IsPlainText("full request was received")
  {
  }

  lemma PlainConcat(a: string, b: string)
    ensures IsPlainText(a + b) <==> IsPlainText(a) && IsPlainText(b)
  {
    if IsPlainText(a + b) {
      assert forall i :: 0 <= i < |a| ==> a[i] == (a + b)[i];
      assert forall i :: 0 <= i < |b| ==> b[i] == (a + b)[|a| + i];
    }
  }
}

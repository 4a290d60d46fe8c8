/** The second reader of requests and answers, and the log lines built from what it reads. */
module IoEcho {
  import opened Bytes
  import opened JsonGrammar
  import opened JsonReader
  import opened JsonFields
  import opened JsonStrings
  import opened JsonRpc
  import opened JsonRpcTheorems
  import opened CommandDelivery
  import opened AnswerContents
  import JsonScanner

  // ------------------------------------------------------------- metadata

  datatype RequestMeta = RequestMeta(parseable: bool, rpcMethod: Option<string>, rpcId: Option<string>,
      toolName: Option<string>)

  datatype RpcOutcome = Unknown | Succeeded | Errored

  datatype ResponseMeta =
    ResponseMeta(parseable: bool, rpcId: Option<string>, error: Option<string>, result: Option<string>,
      outcome: RpcOutcome)

  function RequestMetaOf(body: string): RequestMeta {
    match Fields(body)
    case Failure(_) => RequestMeta(false, None, None, None)
    case Success(root) =>
      var name := TryGetString(root, "method");
      var id := TryGetRaw(root, "id");
      var tool := if name != Some("tools/call") then None
                  else match TryGetObject(root, "params")
                       case None => None
                       case Some(params) => TryGetString(params, "name");
      RequestMeta(true, name, id, tool)
  }

  method ParseRequestIoMeta(body: string) returns (meta: RequestMeta)
    ensures meta == RequestMetaOf(body)
  {
    hide Fields, TryGetString, TryGetRaw, TryGetObject;
    meta := RequestMeta(false, None, None, None);
    var parsed, root, error := JsonScanner.ParseObjectFields(body);
    if !parsed {
      return;
    }
    meta := meta.(parseable := true);
    var name := JsonScanner.TryGetStringField(root, "method");
    meta := meta.(rpcMethod := name);
    var id := JsonScanner.TryGetRawField(root, "id");
    meta := meta.(rpcId := id);
    if name != Some("tools/call") {
      return;
    }
    var params := JsonScanner.TryGetObjectField(root, "params");
    if params.None? {
      return;
    }
    var tool := JsonScanner.TryGetStringField(params.value, "name");
    meta := meta.(toolName := tool);
  }

  function ResultOutcome(raw: string): RpcOutcome {
    match Fields(raw)
    case Failure(_) => Succeeded
    case Success(fields) =>
      match TryGetRaw(fields, "isError")
      case Some(flag) => if Trim(flag) == "true" then Errored else Succeeded
      case None => Succeeded
  }

  function ResponseMetaOf(body: string): ResponseMeta {
    match Fields(body)
    case Failure(_) => ResponseMeta(false, None, None, None, Unknown)
    case Success(root) =>
      var id := TryGetRaw(root, "id");
      match TryGetRaw(root, "error")
      case Some(error) => ResponseMeta(true, id, Some(error), None, Errored)
      case None =>
        match TryGetRaw(root, "result")
        case Some(raw) => ResponseMeta(true, id, None, Some(raw), ResultOutcome(raw))
        case None => ResponseMeta(true, id, None, None, Unknown)
  }

  method ParseResponseIoMeta(body: string) returns (meta: ResponseMeta)
    ensures meta == ResponseMetaOf(body)
  {
    hide Fields, TryGetRaw, Bytes.Trim;
    meta := ResponseMeta(false, None, None, None, Unknown);
    var parsed, root, error := JsonScanner.ParseObjectFields(body);
    if !parsed {
      return;
    }
    meta := meta.(parseable := true);
    var id := JsonScanner.TryGetRawField(root, "id");
    meta := meta.(rpcId := id);
    var errorRaw := JsonScanner.TryGetRawField(root, "error");
    if errorRaw.Some? {
      return meta.(error := errorRaw, outcome := Errored);
    }
    var resultRaw := JsonScanner.TryGetRawField(root, "result");
    if resultRaw.Some? {
      meta := meta.(result := resultRaw, outcome := Succeeded);
      var resultParsed, fields, resultError := JsonScanner.ParseObjectFields(resultRaw.value);
      if resultParsed {
        var isError := JsonScanner.TryGetRawField(fields, "isError");
        if isError.Some? {
          var literal := JsonScanner.Trim(isError.value);
          if literal == "true" {
            meta := meta.(outcome := Errored);
          }
        }
      }
    }
  }

  // --------------------------------------------------- against the tree

  /** What is noted of a request: the members of its tree, of a call the tool's name too, and of
      anything but an object nothing. */
  lemma RequestMetaFollowsTheTree(body: string)
    ensures match Tree(body)
            case None => RequestMetaOf(body) == RequestMeta(false, None, None, None)
            case Some(root) =>
              RequestMetaOf(body) == RequestMeta(true, TextAt(root, "method"), RawAt(root, "id"), ToolNamed(root))
  {
    hide Mirrors, WFMembers, Tree, Fields, TryGetString, TryGetRaw, TryGetObject, TextAt, RawAt, ObjectAt;
    TreeMirrors(body);
    if Tree(body).Some? {
      var fields, root := Fields(body).value, Tree(body).value;
      StringGetter(fields, root, "method");
      RawGetter(fields, root, "id");
      ObjectGetter(fields, root, "params");
      if ObjectAt(root, "params").Some? {
        StringGetter(TryGetObject(fields, "params").value, ObjectAt(root, "params").value, "name");
      }
    }
  }

  /** The name of the tool a `tools/call` request is for. */
  ghost function ToolNamed(root: seq<Member>): Option<string>
    requires WFMembers(root)
  {
    if TextAt(root, "method") != Some("tools/call") then None
    else match ObjectAt(root, "params") case Some(params) => TextAt(params, "name") case None => None
  }

  /** A result that is an object says of itself that it is an error. */
  ghost predicate SaysError(root: seq<Member>)
    requires WFMembers(root)
  {
    match ObjectAt(root, "result") case Some(result) => RawAt(result, "isError") == Some("true") case None => false
  }

  /** What is noted of an answer: its members; and as the outcome an error where there is one or the
      result says so, else success where there is a result, else nothing known. */
  lemma ResponseMetaFollowsTheTree(body: string)
    ensures match Tree(body)
            case None => ResponseMetaOf(body) == ResponseMeta(false, None, None, None, Unknown)
            case Some(root) =>
              var error, result := RawAt(root, "error"), RawAt(root, "result");
              ResponseMetaOf(body) ==
                ResponseMeta(true, RawAt(root, "id"), error, if error.Some? then None else result,
                  if error.Some? then Errored else if result.None? then Unknown
                  else if SaysError(root) then Errored else Succeeded)
  {
    hide Mirrors, WFMembers, Tree, Fields, TryGetRaw, RawAt, ObjectAt, ResultOutcome;
    TreeMirrors(body);
    if Tree(body).Some? {
      var fields, root := Fields(body).value, Tree(body).value;
      RawGetter(fields, root, "id");
      RawGetter(fields, root, "error");
      RawGetter(fields, root, "result");
      if RawAt(root, "result").Some? {
        OutcomeFollowsTheTree(fields, root);
      }
    }
  }

  lemma OutcomeFollowsTheTree(fields: FieldMap, root: seq<Member>)
    requires Mirrors(fields, root) && RawAt(root, "result").Some?
    ensures ResultOutcome(RawAt(root, "result").value) == if SaysError(root) then Errored else Succeeded
  {
    hide WFMembers, Fields, TryGetRaw, ObjectAt, Bytes.Trim, Render, WF;
    ObjectGetter(fields, root, "result");
    if ObjectAt(root, "result").Some? {
      var inner, result := TryGetObject(fields, "result").value, ObjectAt(root, "result").value;
      RawGetter(inner, result, "isError");
      if Lookup(result, "isError").Some? {
        ValueIsTrimmed(Lookup(result, "isError").value);
      }
    }
  }

  // ------------------------------------------- the logged outcome is true

  /** The request went through: its method did not fail and a command, if any, succeeded. */
  predicate Succeeds(body: string, version: string, hasExecutor: bool, answer: (seq<Call>, Call) -> Execution,
      past: seq<Call>) {
    DispatchOk(body, version, hasExecutor) &&
    var plan := PlanFor(body, version, hasExecutor);
    plan.Run? ==> answer(past, plan.call).success
  }

  lemma FlagText(v: Value)
    requires v == TRUE || v == FALSE
    ensures Trim(Trim(Render(v))) == (if v == TRUE then "true" else "false")
  {
    WFScalars(0);
    ValueIsTrimmed(v);
  }

  /** What a result object says about itself is what its `isError` member holds. */
  lemma ResultOutcomeOf(payload: Value)
    requires WF(payload) && payload.Obj? && WFMembers(payload.members)
    requires Lookup(payload.members, "isError") in {None, Some(TRUE), Some(FALSE)}
    ensures ResultOutcome(Trim(Render(payload))) ==
            if Lookup(payload.members, "isError") == Some(TRUE) then Errored else Succeeded
  {
    hide WF, WFMembers, Render, Bytes.Trim, Bind, Lookup, Top, ReadString;
    ValueIsTrimmed(payload);
    RescanByKind(payload);
    BindIsLookup(map[], payload.members, "isError");
    if Lookup(payload.members, "isError").Some? {
      FlagText(Lookup(payload.members, "isError").value);
    }
  }

  /** On every body the router produces the echo is parseable, carries the request's id, and
      reports success exactly when the request went through, an error otherwise. */
  lemma LoggedOutcomeTellsTheTruth(body: string, version: string, hasExecutor: bool,
      answer: (seq<Call>, Call) -> Execution, past: seq<Call>)
    ensures var r := Respond(PlanFor(body, version, hasExecutor), answer, past);
            var meta := ResponseMetaOf(r.body);
            r.hasBody ==>
              meta.parseable && meta.rpcId == Some(RequestId(body)) &&
              meta.outcome == (if Succeeds(body, version, hasExecutor, answer, past) then Succeeded else Errored)
  {
    hide WF, WFMembers, Render, Bytes.Trim, Bind, Lookup, Fields, Respond, PlanFor, DispatchOk, EnvelopeBody,
         RequestId, ResultOutcome, IsPlainText;
    var plan := PlanFor(body, version, hasExecutor);
    var r := Respond(plan, answer, past);
    var key, payload := AnswerShape(body, version, hasExecutor, answer, past);
    if r.hasBody {
      var id := RequestIdIsValue(body);
      PlainWords();
      EnvelopeFields(id, key, payload);
      ValueIsTrimmed(id);
      if key == "result" {
        ResultOutcomeOf(payload);
      }
    }
  }
}

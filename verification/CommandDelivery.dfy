/** Which requests run a command, read off the syntax tree of the request alone. */
module CommandDelivery {
  import opened Bytes
  import opened JsonGrammar
  import opened JsonReader
  import opened JsonFields
  import opened JsonStrings
  import opened JsonRpc

  /** The decoded text a key of an object holds, if its last value is a string. */
  ghost function TextAt(ms: seq<Member>, key: string): Option<string>
    requires WFMembers(ms)
  {
    match Lookup(ms, key)
    case Some(Str(pieces)) => Some(Decode(pieces))
    case _ => None
  }

  /** The whole text of the last value a key holds. */
  ghost function RawAt(ms: seq<Member>, key: string): Option<string>
    requires WFMembers(ms)
  {
    match Lookup(ms, key) case Some(v) => Some(Render(v)) case None => None
  }

  /** The members of the object a key holds, if its last value is an object. */
  ghost function ObjectAt(ms: seq<Member>, key: string): (r: Option<seq<Member>>)
    requires WFMembers(ms)
    ensures r.Some? ==> WFMembers(r.value)
  {
    match Lookup(ms, key)
    case Some(Obj(blank, members)) => assert WF(Obj(blank, members)); Some(members)
    case _ => None
  }

  /** The 32-bit integer a key holds, by the whole text of its last value. */
  ghost function IntAt(ms: seq<Member>, key: string): Option<int>
    requires WFMembers(ms)
  {
    match Lookup(ms, key)
    case Some(v) => ParseInt32(Render(v))
    case None => None
  }

  /** The command of a `tools/call` request, from its tree. */
  ghost function CommandOf(root: seq<Member>): Option<Call>
    requires WFMembers(root)
  {
    if TextAt(root, "jsonrpc") != Some("2.0") || TextAt(root, "method") != Some("tools/call") then None
    else
      match ObjectAt(root, "params")
      case None => None
      case Some(params) =>
        if TextAt(params, "name") != Some("windbg.eval") then None
        else
          match ObjectAt(params, "arguments")
          case None => None
          case Some(arguments) => CommandIn(arguments)
  }

  /** The commands a syntax tree asks for. */
  ghost function CommandsOf(o: Value): seq<Call> {
    if !o.Obj? || !WFMembers(o.members) then []
    else match CommandOf(o.members) case Some(c) => [c] case None => []
  }

  ghost function CommandIn(arguments: seq<Member>): Option<Call>
    requires WFMembers(arguments)
  {
    match TextAt(arguments, "command")
    case None => None
    case Some(c) =>
      if c == "" then None
      else Some(Call(c, Options(match IntAt(arguments, "max_lines") case Some(n) => n case None => 100,
                                match TextAt(arguments, "pattern") case Some(p) => p case None => "")))
  }

  // ------------------------------------------- getters against the tree

  /** A field map holds, at every key, the rendering of the tree's last value. */
  ghost predicate Mirrors(fields: FieldMap, ms: seq<Member>) {
    WFMembers(ms) &&
    forall key :: match Lookup(ms, key)
                  case Some(v) => key in fields && fields[key] == Render(v)
                  case None => key !in fields
  }

  lemma BindMirrors(ms: seq<Member>)
    requires WFMembers(ms)
    ensures Mirrors(Bind(map[], ms), ms)
  {
    hide Lookup, Bind, WFMembers, Render;
    forall key ensures match Lookup(ms, key)
                       case Some(v) => key in Bind(map[], ms) && Bind(map[], ms)[key] == Render(v)
                       case None => key !in Bind(map[], ms) {
      BindIsLookup(map[], ms, key);
    }
  }

  lemma StringGetter(fields: FieldMap, ms: seq<Member>, key: string)
    requires Mirrors(fields, ms)
    ensures TryGetString(fields, key) == TextAt(ms, key)
  {
    hide Render, WFMembers, Decode, SkipWs, ReadString, WF;
    if key in fields {
      var v := Lookup(ms, key).value;
      RescanByKind(v);
      AtEnd(Render(v));
    }
  }

  lemma AtEnd(t: string)
    ensures SkipWs(t, |t|) == |t|
  {
  }

  lemma ObjectGetter(fields: FieldMap, ms: seq<Member>, key: string)
    requires Mirrors(fields, ms)
    ensures TryGetObject(fields, key).Some? <==> ObjectAt(ms, key).Some?
    ensures ObjectAt(ms, key).Some? ==> Mirrors(TryGetObject(fields, key).value, ObjectAt(ms, key).value)
  {
    hide Render, WFMembers, Decode, Top, Bind;
    if key in fields {
      var v := Lookup(ms, key).value;
      RescanByKind(v);
      if v.Obj? {
        BindMirrors(v.members);
      }
    }
  }

  lemma IntGetter(fields: FieldMap, ms: seq<Member>, key: string)
    requires Mirrors(fields, ms)
    ensures TryGetInt(fields, key) == IntAt(ms, key)
  {
    hide Render, WFMembers, ParseInt32, Trim, WF;
    if key in fields {
      ValueIsTrimmed(Lookup(ms, key).value);
    }
  }

  lemma RawGetter(fields: FieldMap, ms: seq<Member>, key: string)
    requires Mirrors(fields, ms)
    ensures TryGetRaw(fields, key) == RawAt(ms, key)
  {
    hide Render, WFMembers, Trim, WF;
    if key in fields {
      ValueIsTrimmed(Lookup(ms, key).value);
    }
  }

  lemma TextOf(ms: seq<Member>, key: string, s: string)
    requires WFMembers(ms) && Lookup(ms, key) == Some(TextValue(s))
    ensures TextAt(ms, key) == Some(s)
  {
    hide WFMembers, Lookup, EscapePieces, Decode;
    DecodeEscape(s);
  }

  lemma ArgumentsGetter(fields: FieldMap, ms: seq<Member>)
    requires Mirrors(fields, ms)
    ensures var o := CommandCall(fields); o.Execute? <==> CommandIn(ms).Some?
    ensures CommandIn(ms).Some? ==> CommandCall(fields).call == CommandIn(ms).value
  {
    hide Mirrors, WFMembers, TryGetString, TryGetInt, TextAt, IntAt;
    StringGetter(fields, ms, "command");
    StringGetter(fields, ms, "pattern");
    IntGetter(fields, ms, "max_lines");
  }

  lemma ToolsCallGetter(fields: FieldMap, ms: seq<Member>)
    requires Mirrors(fields, ms) && TextAt(ms, "jsonrpc") == Some("2.0") && TextAt(ms, "method") == Some("tools/call")
    ensures ToolsCall(fields).Execute? <==> CommandOf(ms).Some?
    ensures CommandOf(ms).Some? ==> ToolsCall(fields).call == CommandOf(ms).value
  {
    hide WFMembers, TryGetString, TryGetObject, TextAt, ObjectAt, CommandIn, CommandCall;
    ObjectGetter(fields, ms, "params");
    if ObjectAt(ms, "params").Some? {
      var params, paramsTree := TryGetObject(fields, "params").value, ObjectAt(ms, "params").value;
      StringGetter(params, paramsTree, "name");
      ObjectGetter(params, paramsTree, "arguments");
      if ObjectAt(paramsTree, "arguments").Some? {
        ArgumentsGetter(TryGetObject(params, "arguments").value, ObjectAt(paramsTree, "arguments").value);
      }
    }
  }

  // ------------------------------------------------------- main theorems

  /** A body that is an object runs exactly the command of its tree, once; through three levels of
      re-parsed substrings nothing is lost, added or changed. */
  lemma CommandsFollowTheTree(body: string, o: Value, version: string)
    requires o.Obj? && WF(o) && ObjectText(body, o)
    ensures CallsOf(PlanFor(body, version, true)) == CommandsOf(o)
  {
    hide Mirrors, WFMembers, TryGetString, TryGetObject, TryGetRaw, TextAt, ObjectAt, CommandIn, ToolsCall, Bind,
         ObjectText, InitializeResult, ToolsListResult, Render, ErrorBody, SuccessBody, Top;
    GrammarEquivalence(body, o);
    var fields := Fields(body).value;
    BindMirrors(o.members);
    StringGetter(fields, o.members, "jsonrpc");
    StringGetter(fields, o.members, "method");
    if TextAt(o.members, "jsonrpc") == Some("2.0") && TextAt(o.members, "method") == Some("tools/call") {
      ToolsCallGetter(fields, o.members);
    }
  }

  /** A body that is no object runs nothing. */
  lemma NoObjectNoCommand(body: string, version: string)
    requires forall o: Value :: o.Obj? && WF(o) ==> !ObjectText(body, o)
    ensures CallsOf(PlanFor(body, version, true)) == []
  {
    hide ObjectText, WF;
    if Top(body).Success? {
      TopSound(body);
    }
  }

  /** A `tools/call` request for the command tool whose `command` argument is `v`. */
  ghost predicate CarriesCommand(o: Value, v: Value) {
    o.Obj? && WFMembers(o.members) &&
    TextAt(o.members, "jsonrpc") == Some("2.0") && TextAt(o.members, "method") == Some("tools/call") &&
    match ObjectAt(o.members, "params")
    case None => false
    case Some(params) => NamesTool(params) && HoldsCommand(ObjectAt(params, "arguments"), v)
  }

  ghost predicate NamesTool(params: seq<Member>)
    requires WFMembers(params)
  {
    TextAt(params, "name") == Some("windbg.eval")
  }

  ghost predicate HoldsCommand(arguments: Option<seq<Member>>, v: Value)
    requires arguments.Some? ==> WFMembers(arguments.value)
  {
    arguments.Some? && Lookup(arguments.value, "command") == Some(v)
  }

  /** The command text printed by `Escape` anywhere in a well-formed request reaches the executor
      byte for byte, exactly once. */
  lemma EscapedCommandArrives(body: string, o: Value, version: string, c: string)
    requires o.Obj? && WF(o) && ObjectText(body, o) && c != "" && CarriesCommand(o, Str(EscapePieces(c)))
    ensures Render(Str(EscapePieces(c))) == "\"" + (Escape(c) + "\"")
    ensures var calls := CallsOf(PlanFor(body, version, true)); |calls| == 1 && calls[0].command == c
  {
    hide WFMembers, TryGetString, TryGetObject, PlanFor, ObjectAt, Lookup, ObjectText, WF, EscapePieces;
    CommandsFollowTheTree(body, o, version);
    DecodeEscape(c);
  }

  /** Members with other keys do not matter, wherever they stand. */
  lemma {:induction false} OtherMembersDoNotMatter(front: seq<Member>, m: Member, back: seq<Member>, key: string)
    requires WFMembers(front + [m] + back) && WFMembers(front + back) && WFPieces(m.key) && Decode(m.key) != key
    ensures Lookup(front + [m] + back, key) == Lookup(front + back, key)
    decreases |front|
  {
    hide WFMembers, WFPieces, Decode;
    LookupStep(front + [m] + back, key);
    LookupStep(front + back, key);
    if front == [] {
      assert [] + [m] + back == [m] + back && ([m] + back)[1..] == back && [] + back == back;
    } else {
      assert (front + [m] + back)[1..] == front[1..] + [m] + back;
      assert (front + back)[1..] == front[1..] + back;
      OtherMembersDoNotMatter(front[1..], m, back, key);
    }
  }

  lemma LookupStep(ms: seq<Member>, key: string)
    requires WFMembers(ms)
    ensures ms != [] ==>
              WFPieces(ms[0].key) && WFMembers(ms[1..]) &&
              Lookup(ms, key) == if Lookup(ms[1..], key).None? && Decode(ms[0].key) == key then Some(ms[0].value)
                else Lookup(ms[1..], key)
  {
    hide Decode;
  }
}

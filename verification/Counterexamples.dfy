/** Inputs on which the router and the extractor do less than one would expect of them. */
module Counterexamples {
  import opened Bytes
  import opened JsonGrammar
  import opened JsonFields
  import opened JsonRpc
  import opened JsonRpcTheorems
  import opened CommandDelivery

  /** A record is read back as what its tree holds. */
  lemma RecordFields(ms: seq<Member>)
    requires WFMembers(ms)
    ensures Fields(Render(Record(ms))).Success? && Mirrors(Fields(Render(Record(ms))).value, ms)
  {
    hide Render, Top, Bind, Mirrors, WFMembers;
    var t := Render(Record(ms));
    WFRecord(ms);
    assert t == "" + t + "" && Blank("");
    GrammarEquivalence(t, Record(ms));
    BindMirrors(ms);
  }

  /** A scalar that is none of RFC 8259 is extracted like any other: `{"a":01x}` has the field `a`. */
  lemma UncheckedScalarIsExtracted()
    ensures Fields("{\"a\":01x}").Success? && TryGetRaw(Fields("{\"a\":01x}").value, "a") == Some("01x")
    ensures !IsRfcScalar("01x")
  {
    hide Fields, Mirrors, WFMembers, WF, Lookup, IsRfcScalar, Render;
    var v := Scalar("01x");
    ScalarsAreNotChecked();
    BareIsValue("01x");
    LookupOne("a", v, "a");
    RecordFields([Entry("a", v)]);
    UncheckedText();
    RawGetter(Fields(Render(Record([Entry("a", v)]))).value, [Entry("a", v)], "a");
  }

  lemma BareIsValue(run: string)
    requires WFRun(run)
    ensures WF(Scalar(run)) && Render(Scalar(run)) == run
  {
  }

  lemma UncheckedText()
    ensures Render(Record([Entry("a", Scalar("01x"))])) == "{\"a\":01x}"
  {
    hide Render, RenderField, Entry;
    BareIsValue("01x");
    RecordOne(Entry("a", Scalar("01x")));
    EntryText("a", Scalar("01x"));
  }

  /** The notification of a method: a version 2.0 request without an id. */
  function Notification(name: string): string {
    Render(Record([Entry("jsonrpc", TextValue("2.0")), Entry("method", TextValue(name))]))
  }

  predicate IsKnownMethod(name: string) {
    name in {"initialize", "initialized", "notifications/initialized", "tools/list", "tools/call"}
  }

  /** A notification of an unknown method is answered: a body with an error and the id `null`, and
      the status of success. */
  lemma FailingNotificationIsAnswered(name: string, version: string, answer: (seq<Call>, Call) -> Execution,
      past: seq<Call>)
    requires !IsKnownMethod(name)
    ensures Respond(PlanFor(Notification(name), version, true), answer, past) ==
            HttpResult(200, ErrorBody("null", -32601, "Method not found"), true)
    ensures Fields(Notification(name)).Success? && "id" !in Fields(Notification(name)).value
  {
    hide Fields, Mirrors, WFMembers, WF, Lookup, TextAt, TextValue, ErrorBody, TryGetString;
    var ms := [Entry("jsonrpc", TextValue("2.0")), Entry("method", TextValue(name))];
    LookupTwo("jsonrpc", TextValue("2.0"), "method", TextValue(name), "jsonrpc");
    LookupTwo("jsonrpc", TextValue("2.0"), "method", TextValue(name), "method");
    LookupTwo("jsonrpc", TextValue("2.0"), "method", TextValue(name), "id");
    RecordFields(ms);
    var fields := Fields(Notification(name)).value;
    StringGetter(fields, ms, "jsonrpc");
    StringGetter(fields, ms, "method");
    TextOf(ms, "jsonrpc", "2.0");
    TextOf(ms, "method", name);
    NotHeld(fields, ms, "id");
    PlanUnknown(Notification(name), fields, name, version);
  }

  lemma NotHeld(fields: FieldMap, ms: seq<Member>, key: string)
    requires Mirrors(fields, ms) && Lookup(ms, key) == None
    ensures key !in fields
  {
    hide Lookup, WFMembers, Render;
  }

  lemma PlanUnknown(body: string, fields: FieldMap, name: string, version: string)
    requires Fields(body) == Success(fields) && "id" !in fields && !IsKnownMethod(name)
    requires TryGetString(fields, "jsonrpc") == Some("2.0") && TryGetString(fields, "method") == Some(name)
    ensures PlanFor(body, version, true) == Reply(HttpResult(200, ErrorBody("null", -32601, "Method not found"), true))
  {
    hide Fields, TryGetString, ErrorBody, InitializeResult, ToolsListResult, ToolsCall;
  }
}

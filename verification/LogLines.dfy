/** The one-line summaries of requests, lifecycle stages and answers. */
module LogLines {
  import opened Bytes
  import opened Decimals
  import opened Http
  import opened IoEcho

  datatype TraceContext = TraceContext(
    traceId: string, stage: string, rpcMethod: string, rpcId: string, toolName: string, outcome: string,
      durationMs: nat)

  const VALUE_LIMIT: nat := 160
  const TRUNCATED_SUFFIX := "...(truncated)"

  // ------------------------------------------------------ single-line values

  predicate BreaksLine(c: char) {
    c == '\r' || c == '\n' || c == '\t'
  }

  ghost predicate OneLine(s: string) {
    forall i :: 0 <= i < |s| ==> !BreaksLine(s[i])
  }

  function Sanitized(s: string): (r: string)
    ensures |r| == |s| && forall i :: 0 <= i < |s| ==> r[i] == if BreaksLine(s[i]) then ' ' else s[i]
  {
    seq(|s|, i requires 0 <= i < |s| => if BreaksLine(s[i]) then ' ' else s[i])
  }

  method SanitizeSingleLine(value: string) returns (sanitized: string)
    ensures sanitized == Sanitized(value)
  {
    sanitized := "";
    for i := 0 to |value|
      invariant |sanitized| == i
      invariant forall k :: 0 <= k < i ==> sanitized[k] == if BreaksLine(value[k]) then ' ' else value[k]
    {
      if value[i] == '\r' || value[i] == '\n' || value[i] == '\t' {
        sanitized := sanitized + [' '];
        continue;
      }
      sanitized := sanitized + [value[i]];
    }
  }

  function Brief(value: string): string {
    if |value| <= VALUE_LIMIT then Sanitized(value) else Sanitized(value)[..VALUE_LIMIT] + TRUNCATED_SUFFIX
  }

  method TruncateForSummary(value: string) returns (r: string)
    ensures r == Brief(value)
  {
    var sanitized := SanitizeSingleLine(value);
    if |sanitized| <= VALUE_LIMIT {
      return sanitized;
    }
    r := sanitized[..VALUE_LIMIT];
    r := r + TRUNCATED_SUFFIX;
  }

  /** A value in a summary is one line: its first 160 bytes, line breaks and tabs as blanks, and the
      suffix if there are more. A short one-line value is shown as it is. */
  lemma BriefIsBrief(value: string)
    ensures OneLine(Brief(value))
    ensures |value| <= 160 ==> |Brief(value)| == |value| && (OneLine(value) ==> Brief(value) == value)
    ensures |value| > 160 ==> |Brief(value)| == 174 && Brief(value)[160..] == "...(truncated)"
    ensures forall i :: 0 <= i < |value| && i < 160 ==>
              Brief(value)[i] == if value[i] in "\r\n\t" then ' ' else value[i]
  {
    hide OneLine;
    var front := if |value| > 160 then Sanitized(value)[..160] else Sanitized(value);
    SanitizedIsOneLine(value, |front|);
    SuffixIsOneLine();
    OneLineConcat(front, TRUNCATED_SUFFIX);
    assert Sanitized(value)[..|front|] == front;
    if |value| <= 160 && OneLine(value) {
      UnbrokenStays(value);
    }
    assert "\r\n\t" == ['\r', '\n', '\t'];
  }

  lemma SanitizedIsOneLine(value: string, k: nat)
    requires k <= |value|
    ensures OneLine(Sanitized(value)[..k])
  {
  }

  lemma SuffixIsOneLine()
    ensures OneLine(TRUNCATED_SUFFIX)
  {
  }

  lemma UnbrokenStays(value: string)
    requires OneLine(value)
    ensures Sanitized(value) == value
  {
  }

  lemma OneLineConcat(a: string, b: string)
    ensures OneLine(a + b) <==> OneLine(a) && OneLine(b)
  {
    if OneLine(a + b) {
      assert forall i :: 0 <= i < |a| ==> a[i] == (a + b)[i];
      assert forall i :: 0 <= i < |b| ==> b[i] == (a + b)[|a| + i];
    }
  }

  // ------------------------------------------------------- sensitive headers

  predicate IsSensitive(name: string) {
    var lowered := ToLower(name);
    lowered == "authorization" || lowered == "proxy-authorization" || lowered == "x-api-key"
  }

  function MaskedName(name: string): string {
    ToLower(name) + "=<masked>"
  }

  /** The entries a set of header names gives rise to; values play no part. */
  ghost function Masked(names: set<string>): multiset<string> {
    if names == {} then multiset{}
    else
      var n :| n in names;
      (if IsSensitive(n) then multiset{MaskedName(n)} else multiset{}) + Masked(names - {n})
  }

  /** It does not matter which name is taken first. */
  lemma {:induction false} MaskedAnyFirst(names: set<string>, n: string)
    requires n in names
    ensures Masked(names) == (if IsSensitive(n) then multiset{MaskedName(n)} else multiset{}) + Masked(names - {n})
    decreases |names|
  {
    hide IsSensitive, MaskedName;
    var first :| first in names && Masked(names) ==
      (if IsSensitive(first) then multiset{MaskedName(first)} else multiset{}) + Masked(names - {first});
    if first != n {
      MaskedAnyFirst(names - {first}, n);
      MaskedAnyFirst(names - {n}, first);
      assert names - {first} - {n} == names - {n} - {first};
    }
  }

  /** Byte-wise lexicographic order, as `std::string` compares. */
  predicate AtMost(a: string, b: string) {
    a == "" || (b != "" && (a[0] < b[0] || (a[0] == b[0] && AtMost(a[1..], b[1..]))))
  }

  lemma {:induction false} AtMostTotal(a: string, b: string)
    ensures AtMost(a, b) || AtMost(b, a)
    ensures AtMost(a, b) && AtMost(b, a) ==> a == b
    decreases |a|
  {
    if a != "" && b != "" && a[0] == b[0] {
      AtMostTotal(a[1..], b[1..]);
      assert a == [a[0]] + a[1..] && b == [b[0]] + b[1..];
    }
  }

  lemma {:induction false} AtMostTransitive(a: string, b: string, c: string)
    requires AtMost(a, b) && AtMost(b, c)
    ensures AtMost(a, c)
    decreases |a|
  {
    if a != "" && a[0] == b[0] == c[0] {
      AtMostTransitive(a[1..], b[1..], c[1..]);
    }
  }

  ghost predicate Ordered(s: seq<string>) {
    forall i, j :: 0 <= i < j < |s| ==> AtMost(s[i], s[j])
  }

  lemma SameLeast(a: seq<string>, b: seq<string>)
    requires Ordered(a) && Ordered(b) && multiset(a) == multiset(b) && a != []
    ensures b != [] && a[0] == b[0]
  {
    assert a[0] in multiset(a);
    var i :| 0 <= i < |b| && b[i] == a[0];
    assert b[0] in multiset(b);
    var j :| 0 <= j < |a| && a[j] == b[0];
    AtMostReflexive(a[0]);
    AtMostTotal(a[0], b[0]);
  }

  /** A sorted sequence is determined by what it holds. */
  lemma {:induction false} OrderedUnique(a: seq<string>, b: seq<string>)
    requires Ordered(a) && Ordered(b) && multiset(a) == multiset(b)
    ensures a == b
    decreases |a|
  {
    hide Ordered, AtMost;
    if a == [] {
      assert |multiset(b)| == |b|;
    } else {
      SameLeast(a, b);
      OrderedRest(a);
      OrderedRest(b);
      OrderedUnique(a[1..], b[1..]);
      assert a == [a[0]] + a[1..] && b == [b[0]] + b[1..];
    }
  }

  lemma OrderedRest(s: seq<string>)
    requires s != [] && Ordered(s)
    ensures Ordered(s[1..]) && multiset(s[1..]) == multiset(s) - multiset{s[0]}
  {
    assert s == [s[0]] + s[1..];
  }

  lemma {:induction false} AtMostReflexive(a: string)
    ensures AtMost(a, a)
    decreases |a|
  {
    if a == "" {
    } else {
      AtMostReflexive(a[1..]);
    }
  }

  /** `std::sort`, by insertion. */
  method SortStrings(input: seq<string>) returns (r: seq<string>)
    ensures Ordered(r) && multiset(r) == multiset(input)
  {
    r := [];
    for k := 0 to |input|
      invariant Ordered(r) && multiset(r) == multiset(input[..k])
    {
      r := Insert(r, input[k]);
      assert input[..k + 1] == input[..k] + [input[k]];
    }
    assert input[..|input|] == input;
  }

  method Insert(s: seq<string>, x: string) returns (r: seq<string>)
    requires Ordered(s)
    ensures Ordered(r) && multiset(r) == multiset(s) + multiset{x}
  {
    var i := 0;
    while i < |s| && AtMost(s[i], x)
      invariant 0 <= i <= |s| && forall k :: 0 <= k < i ==> AtMost(s[k], x)
    {
      i := i + 1;
    }
    r := s[..i] + [x] + s[i..];
    assert multiset(r) == multiset(s[..i]) + multiset{x} + multiset(s[i..]);
    assert s == s[..i] + s[i..];
    forall k | i <= k < |s| ensures AtMost(x, s[k]) {
      AtMostTotal(x, s[i]);
      if k > i {
        AtMostTransitive(x, s[i], s[k]);
      }
    }
  }

  function CommaJoined(values: seq<string>): string {
    if values == [] then "" else if |values| == 1 then values[0]
      else CommaJoined(values[..|values| - 1]) + "," + values[|values| - 1]
  }

  method JoinValues(values: seq<string>) returns (joined: string)
    ensures joined == CommaJoined(values)
  {
    if values == [] {
      return "";
    }
    joined := values[0];
    for i := 1 to |values|
      invariant joined == CommaJoined(values[..i])
    {
      assert values[..i + 1][..i] == values[..i];
      joined := joined + ",";
      joined := joined + values[i];
    }
    assert values[..|values|] == values;
  }

  /** A summary of the sensitive headers among `names`: their masked names in order. */
  ghost predicate IsSensitiveSummary(names: set<string>, summary: string) {
    exists list: seq<string> :: Ordered(list) && multiset(list) == Masked(names) && summary == SensitiveText(list)
  }

  function SensitiveText(list: seq<string>): string {
    if list == [] then "sensitive_headers=none" else "sensitive_headers=" + CommaJoined(list)
  }

  /** The header map is visited in any order at all. */
  method BuildSensitiveHeadersSummary(headers: map<string, string>) returns (summary: string)
    ensures IsSensitiveSummary(headers.Keys, summary)
  {
    hide IsSensitive, MaskedName, ToLower;
    var maskedHeaders: seq<string> := [];
    var left := headers.Keys;
    while left != {}
      invariant left <= headers.Keys
      invariant multiset(maskedHeaders) + Masked(left) == Masked(headers.Keys)
      decreases |left|
    {
      var name :| name in left;
      MaskedAnyFirst(left, name);
      left := left - {name};
      if !IsSensitive(name) {
        continue;
      }
      maskedHeaders := maskedHeaders + [MaskedName(name)];
    }
    maskedHeaders := SortStrings(maskedHeaders);
    if maskedHeaders == [] {
      return "sensitive_headers=none";
    }
    var joined := JoinValues(maskedHeaders);
    summary := "sensitive_headers=" + joined;
  }

  lemma SensitiveSummaryUnique(names: set<string>, s1: string, s2: string)
    requires IsSensitiveSummary(names, s1) && IsSensitiveSummary(names, s2)
    ensures s1 == s2
  {
    hide Masked, Ordered, SensitiveText;
    var l1: seq<string> :| Ordered(l1) && multiset(l1) == Masked(names) && s1 == SensitiveText(l1);
    var l2: seq<string> :| Ordered(l2) && multiset(l2) == Masked(names) && s2 == SensitiveText(l2);
    OrderedUnique(l1, l2);
  }

  /** A header name that is shown masked as an entry: one of three, in any case of letters. */
  ghost predicate IsMaskedAs(name: string, entry: string) {
    ToLower(name) in {"authorization", "proxy-authorization", "x-api-key"} && entry == ToLower(name) + "=<masked>"
  }

  /** Each entry is there as often as there are names masked as it. */
  lemma {:induction false} MaskedCounts(names: set<string>, entry: string)
    ensures Masked(names)[entry] == |set n | n in names && IsMaskedAs(n, entry)|
    decreases |names|
  {
    hide IsMaskedAs, IsSensitive, MaskedName;
    var these := set n | n in names && IsMaskedAs(n, entry);
    if names == {} {
      assert these == {};
    } else {
      var first :| first in names && Masked(names) ==
        (if IsSensitive(first) then multiset{MaskedName(first)} else multiset{}) + Masked(names - {first});
      MaskedCounts(names - {first}, entry);
      SensitiveExactly(first, entry);
      var others := set n | n in names - {first} && IsMaskedAs(n, entry);
      assert these == if IsMaskedAs(first, entry) then others + {first} else others;
    }
  }

  lemma SensitiveExactly(name: string, entry: string)
    ensures IsMaskedAs(name, entry) <==> IsSensitive(name) && MaskedName(name) == entry
  {
    hide ToLower;
  }

  /** The header summary lists the sensitive names in order, each as often as the request has it in
      some case of letters, or says that there is none. */
  lemma SensitiveHeadersShown(names: set<string>, summary: string) returns (list: seq<string>)
    requires IsSensitiveSummary(names, summary)
    ensures Ordered(list) && forall e: string :: multiset(list)[e] == |set n | n in names && IsMaskedAs(n, e)|
    ensures summary == if list == [] then "sensitive_headers=none" else "sensitive_headers=" + CommaJoined(list)
  {
    hide Masked, Ordered, IsMaskedAs;
    list :| Ordered(list) && multiset(list) == Masked(names) && summary == SensitiveText(list);
    forall e: string ensures multiset(list)[e] == |set n | n in names && IsMaskedAs(n, e)| {
      MaskedCounts(names, e);
    }
  }

  lemma {:induction false} NothingMasked(names: set<string>)
    requires forall n :: n in names ==> !IsSensitive(n)
    ensures Masked(names) == multiset{}
    decreases |names|
  {
    hide IsSensitive, MaskedName;
    if names != {} {
      var n :| n in names && Masked(names) ==
        (if IsSensitive(n) then multiset{MaskedName(n)} else multiset{}) + Masked(names - {n});
      NothingMasked(names - {n});
    }
  }

  /** The entry of a name if a header map has it. */
  ghost function EntryOf(name: string, names: set<string>): seq<string> {
    if name in names then [name + "=<masked>"] else []
  }

  lemma TakeMasked(names: set<string>, name: string)
    requires name in {"authorization", "proxy-authorization", "x-api-key"} && ToLower(name) == name
    ensures Masked(names) == multiset(EntryOf(name, names)) + Masked(names - {name})
  {
    hide Masked, ToLower;
    if name in names {
      MaskedAnyFirst(names, name);
    } else {
      assert names - {name} == names;
    }
  }

  lemma LowerNames()
    ensures ToLower("authorization") == "authorization" && ToLower("x-api-key") == "x-api-key"
    ensures ToLower("proxy-authorization") == "proxy-authorization"
  {
    assert ToLower("authorization") == "authorization" && ToLower("x-api-key") == "x-api-key";
    assert ToLower("proxy-authorization") == "proxy-authorization";
  }

  lemma EntriesInOrder(names: set<string>)
    ensures Ordered(EntryOf("authorization", names) + EntryOf("proxy-authorization", names) +
                    EntryOf("x-api-key", names))
  {
    hide AtMost;
    FirstByteDecides("authorization" + "=<masked>", "proxy-authorization" + "=<masked>");
    FirstByteDecides("authorization" + "=<masked>", "x-api-key" + "=<masked>");
    FirstByteDecides("proxy-authorization" + "=<masked>", "x-api-key" + "=<masked>");
  }

  lemma FirstByteDecides(a: string, b: string)
    requires a != "" && b != "" && a[0] < b[0]
    ensures AtMost(a, b)
  {
  }

  /** Of lower-case names, which is what the parser makes of all, the summary shows at most three, in
      this order and parted by commas. */
  lemma LowerNamesShown(names: set<string>, summary: string)
    requires IsSensitiveSummary(names, summary) && forall n :: n in names ==> ToLower(n) == n
    ensures var list := EntryOf("authorization", names) + EntryOf("proxy-authorization", names) +
                        EntryOf("x-api-key", names);
            summary == if |list| == 0 then "sensitive_headers=none"
                       else if |list| == 1 then "sensitive_headers=" + list[0]
                       else if |list| == 2 then "sensitive_headers=" + (list[0] + "," + list[1])
                       else "sensitive_headers=" + (list[0] + "," + list[1] + "," + list[2])
  {
    hide Masked, ToLower, Ordered, EntryOf, CommaJoined;
    var a, p, x := "authorization", "proxy-authorization", "x-api-key";
    var list := EntryOf(a, names) + EntryOf(p, names) + EntryOf(x, names);
    LowerNames();
    var rest := names - {a} - {p};
    TakeMasked(names, a);
    TakeMasked(names - {a}, p);
    TakeMasked(rest, x);
    OthersTaken(names, a, p);
    OthersTaken(names - {a}, p, x);
    OthersTaken(names, a, x);
    NothingMasked(rest - {x});
    EntriesInOrder(names);
    assert multiset(list) == Masked(names);
    assert IsSensitiveSummary(names, SensitiveText(list));
    SensitiveSummaryUnique(names, summary, SensitiveText(list));
    AtMostThree(names);
    JoinedUpToThree(list);
  }

  lemma OthersTaken(names: set<string>, taken: string, name: string)
    requires taken != name
    ensures EntryOf(name, names - {taken}) == EntryOf(name, names)
  {
  }

  lemma AtMostThree(names: set<string>)
    ensures |EntryOf("authorization", names) + EntryOf("proxy-authorization", names) +
             EntryOf("x-api-key", names)| <= 3
  {
  }

  lemma JoinedUpToThree(list: seq<string>)
    requires |list| <= 3
    ensures |list| == 1 ==> CommaJoined(list) == list[0]
    ensures |list| == 2 ==> CommaJoined(list) == list[0] + "," + list[1]
    ensures |list| == 3 ==> CommaJoined(list) == list[0] + "," + list[1] + "," + list[2]
  {
    if |list| > 1 {
      var front := list[..|list| - 1];
      assert |front| > 1 ==> CommaJoined(front) == front[0] + "," + front[1];
    }
  }

  // ------------------------------------------------------------- summaries

  function Labelled(tag: string, value: string): string {
    tag + Brief(value)
  }

  function IfAny(tag: string, value: string): string {
    if value == "" then "" else Labelled(tag, value)
  }

  function TraceText(ctx: TraceContext): string {
    IfAny(" trace_id=", ctx.traceId) + IfAny(" stage=", ctx.stage) + (" duration_ms=" + DecimalText(ctx.durationMs))
  }

  function OrEmpty(o: Option<string>): string {
    match o case Some(s) => s case None => ""
  }

  /** The context's value where it has one, else what the body says, else a placeholder. */
  function Prefer(fromContext: string, fromBody: Option<string>, placeholder: string): string {
    if fromContext != "" then fromContext else match fromBody case Some(v) => v case None => placeholder
  }

  function RpcRequestText(meta: RequestMeta, ctx: TraceContext): string {
    var rpcMethod := Prefer(ctx.rpcMethod, meta.rpcMethod, "(missing)");
    var tool := Prefer(ctx.toolName, meta.toolName, "");
    Labelled(" rpc_method=", rpcMethod) + Labelled(" rpc_id=", Prefer(ctx.rpcId, meta.rpcId, "(missing)")) +
      (if tool != "" || rpcMethod == "tools/call" then Labelled(" tool=", if tool == "" then "(missing)" else tool)
        else "")
  }

  function ContextText(ctx: TraceContext): string {
    IfAny(" rpc_method=", ctx.rpcMethod) + IfAny(" rpc_id=", ctx.rpcId) + IfAny(" tool=", ctx.toolName)
  }

  /** A request's summary without its header part: it depends on no header. */
  function RequestText(verb: string, path: string, body: string, ctx: TraceContext): string {
    var meta := RequestMetaOf(body);
    Labelled("mcp.request method=", verb) + TraceText(ctx) + Labelled(" path=", path) +
      (if meta.parseable then RpcRequestText(meta, ctx) else " rpc_meta=unparseable" + ContextText(ctx)) +
      (" body_bytes=" + DecimalText(|body|)) + " "
  }

  ghost predicate IsRequestSummary(request: HttpRequest, ctx: TraceContext, summary: string) {
    exists s: string :: IsSensitiveSummary(request.headers.Keys, s) &&
      summary == RequestText(request.verb, request.path, request.body, ctx) + s
  }

  method AppendLabelled(summary: string, tag: string, value: string) returns (r: string)
    ensures r == summary + Labelled(tag, value)
  {
    var brief := TruncateForSummary(value);
    r := summary + (tag + brief);
  }

  method AppendIfAny(summary: string, tag: string, value: string) returns (r: string)
    ensures r == summary + IfAny(tag, value)
  {
    r := summary;
    if value != "" {
      r := AppendLabelled(summary, tag, value);
    }
  }

  method AppendTraceContext(ctx: TraceContext, summary: string) returns (r: string)
    ensures r == summary + TraceText(ctx)
  {
    hide Brief, DecimalText;
    r := AppendIfAny(summary, " trace_id=", ctx.traceId);
    r := AppendIfAny(r, " stage=", ctx.stage);
    r := r + (" duration_ms=" + DecimalText(ctx.durationMs));
  }

  method AppendRpcRequestMeta(meta: RequestMeta, ctx: TraceContext, summary: string) returns (r: string)
    ensures r == summary + RpcRequestText(meta, ctx)
  {
    hide Brief, Labelled;
    var rpcMethod := "(missing)";
    if ctx.rpcMethod != "" {
      rpcMethod := ctx.rpcMethod;
    } else if meta.rpcMethod.Some? {
      rpcMethod := meta.rpcMethod.value;
    }
    r := AppendLabelled(summary, " rpc_method=", rpcMethod);
    var rpcId := "(missing)";
    if ctx.rpcId != "" {
      rpcId := ctx.rpcId;
    } else if meta.rpcId.Some? {
      rpcId := meta.rpcId.value;
    }
    r := AppendLabelled(r, " rpc_id=", rpcId);
    var tool := "";
    if ctx.toolName != "" {
      tool := ctx.toolName;
    } else if meta.toolName.Some? {
      tool := meta.toolName.value;
    }
    if tool != "" || rpcMethod == "tools/call" {
      r := AppendLabelled(r, " tool=", if tool == "" then "(missing)" else tool);
    }
  }

  method AppendContext(ctx: TraceContext, summary: string) returns (r: string)
    ensures r == summary + ContextText(ctx)
  {
    hide IfAny;
    r := AppendIfAny(summary, " rpc_method=", ctx.rpcMethod);
    r := AppendIfAny(r, " rpc_id=", ctx.rpcId);
    r := AppendIfAny(r, " tool=", ctx.toolName);
  }

  method BuildRequestIoSummary(request: HttpRequest, ctx: TraceContext) returns (summary: string)
    ensures IsRequestSummary(request, ctx, summary)
  {
    hide Brief, Labelled, TraceText, RpcRequestText, ContextText, RequestMetaOf, DecimalText, IsSensitiveSummary;
    summary := AppendLabelled("", "mcp.request method=", request.verb);
    assert "" + Labelled("mcp.request method=", request.verb) == Labelled("mcp.request method=", request.verb);
    summary := AppendTraceContext(ctx, summary);
    summary := AppendLabelled(summary, " path=", request.path);
    var meta := ParseRequestIoMeta(request.body);
    if meta.parseable {
      summary := AppendRpcRequestMeta(meta, ctx, summary);
    } else {
      ghost var before := summary;
      summary := summary + " rpc_meta=unparseable";
      summary := AppendContext(ctx, summary);
      assert summary == before + (" rpc_meta=unparseable" + ContextText(ctx));
    }
    summary := summary + (" body_bytes=" + DecimalText(|request.body|));
    summary := summary + " ";
    var sensitive := BuildSensitiveHeadersSummary(request.headers);
    summary := summary + sensitive;
  }

  function LifecycleText(ctx: TraceContext, message: string): string {
    "mcp.stage" + TraceText(ctx) + ContextText(ctx) + IfAny(" outcome=", ctx.outcome) + IfAny(" msg=", message)
  }

  method BuildLifecycleIoSummary(ctx: TraceContext, message: string) returns (summary: string)
    ensures summary == LifecycleText(ctx, message)
  {
    hide IfAny, TraceText, ContextText;
    summary := "mcp.stage";
    summary := AppendTraceContext(ctx, summary);
    summary := AppendContext(ctx, summary);
    summary := AppendIfAny(summary, " outcome=", ctx.outcome);
    summary := AppendIfAny(summary, " msg=", message);
  }

  function OutcomeName(o: RpcOutcome): string {
    match o case Unknown => "unknown" case Succeeded => "success" case Errored => "error"
  }

  function RpcResponseText(meta: ResponseMeta, ctx: TraceContext): string {
    IfAny(" rpc_id=", Prefer(ctx.rpcId, meta.rpcId, "")) +
      Labelled(" rpc_outcome=", if ctx.outcome != "" then ctx.outcome else OutcomeName(meta.outcome)) +
      IfAny(" tool=", ctx.toolName) +
      (if meta.error.Some? then Labelled(" error=", meta.error.value)
       else if meta.result.Some? then Labelled(" result=", meta.result.value) else "")
  }

  function OutcomeContext(ctx: TraceContext): string {
    IfAny(" rpc_id=", ctx.rpcId) + IfAny(" rpc_outcome=", ctx.outcome) + IfAny(" tool=", ctx.toolName)
  }

  function ResponseText(r: HttpResponse, ctx: TraceContext): string {
    ("mcp.response status=" + DecimalText(r.status)) + TraceText(ctx) +
      (if r.hasBody then " has_body=true" else " has_body=false") +
      (if !r.hasBody then OutcomeContext(ctx)
       else if ResponseMetaOf(r.body).parseable then RpcResponseText(ResponseMetaOf(r.body), ctx)
       else " rpc_meta=unparseable" + OutcomeContext(ctx) +
            Labelled(" body=", if r.body == "" then "(empty)" else r.body))
  }

  method AppendOutcomeContext(ctx: TraceContext, summary: string) returns (r: string)
    ensures r == summary + OutcomeContext(ctx)
  {
    hide IfAny;
    r := AppendIfAny(summary, " rpc_id=", ctx.rpcId);
    r := AppendIfAny(r, " rpc_outcome=", ctx.outcome);
    r := AppendIfAny(r, " tool=", ctx.toolName);
  }

  method AppendRpcResponseMeta(meta: ResponseMeta, ctx: TraceContext, summary: string) returns (r: string)
    ensures r == summary + RpcResponseText(meta, ctx)
  {
    hide IfAny, Labelled, OutcomeName;
    var rpcId := "";
    if ctx.rpcId != "" {
      rpcId := ctx.rpcId;
    } else if meta.rpcId.Some? {
      rpcId := meta.rpcId.value;
    }
    r := AppendIfAny(summary, " rpc_id=", rpcId);
    var outcome := if ctx.outcome != "" then ctx.outcome else OutcomeName(meta.outcome);
    r := AppendLabelled(r, " rpc_outcome=", outcome);
    r := AppendIfAny(r, " tool=", ctx.toolName);
    ghost var a, b, c := IfAny(" rpc_id=", rpcId), Labelled(" rpc_outcome=", outcome), IfAny(" tool=", ctx.toolName);
    ConcatFive(summary, a, b, c, "");
    if meta.error.Some? {
      r := AppendLabelled(r, " error=", meta.error.value);
      ConcatFive(summary, a, b, c, Labelled(" error=", meta.error.value));
      return;
    }
    if meta.result.Some? {
      r := AppendLabelled(r, " result=", meta.result.value);
      ConcatFive(summary, a, b, c, Labelled(" result=", meta.result.value));
    }
  }

  lemma ConcatFive(s: string, a: string, b: string, c: string, d: string)
    ensures s + a + b + c + d == s + (a + b + c + d)
    ensures s + a + b + c == s + a + b + c + ""
  {
  }

  method BuildResponseIoSummary(response: HttpResponse, ctx: TraceContext) returns (summary: string)
    ensures summary == ResponseText(response, ctx)
  {
    hide IfAny, Labelled, TraceText, OutcomeContext, RpcResponseText, ResponseMetaOf, DecimalText;
    summary := "mcp.response status=" + DecimalText(response.status);
    summary := AppendTraceContext(ctx, summary);
    summary := summary + if response.hasBody then " has_body=true" else " has_body=false";
    if !response.hasBody {
      summary := AppendOutcomeContext(ctx, summary);
      return;
    }
    var meta := ParseResponseIoMeta(response.body);
    if meta.parseable {
      summary := AppendRpcResponseMeta(meta, ctx, summary);
      return;
    }
    ghost var before := summary;
    summary := summary + " rpc_meta=unparseable";
    summary := AppendOutcomeContext(ctx, summary);
    summary := AppendLabelled(summary, " body=", if response.body == "" then "(empty)" else response.body);
    assert summary == before + (" rpc_meta=unparseable" + OutcomeContext(ctx) +
           Labelled(" body=", if response.body == "" then "(empty)" else response.body));
  }

  // ------------------------------------------------------------- theorems

  /** Two requests that differ in nothing but the values of their headers have the same summary,
      in whatever order each header map was visited. */
  lemma HeaderValuesAreNotShown(r1: HttpRequest, r2: HttpRequest, ctx: TraceContext, s1: string, s2: string)
    requires r1 == r2.(headers := r1.headers) && r1.headers.Keys == r2.headers.Keys
    requires IsRequestSummary(r1, ctx, s1) && IsRequestSummary(r2, ctx, s2)
    ensures s1 == s2
  {
    hide RequestText, IsSensitiveSummary;
    var h1: string :| IsSensitiveSummary(r1.headers.Keys, h1) && s1 == RequestText(r1.verb, r1.path, r1.body, ctx) + h1;
    var h2: string :| IsSensitiveSummary(r2.headers.Keys, h2) && s2 == RequestText(r2.verb, r2.path, r2.body, ctx) + h2;
    SensitiveSummaryUnique(r1.headers.Keys, h1, h2);
  }

  /** The tags and placeholders of the summaries hold no line break. */
  lemma TagsAreOneLine()
    ensures OneLine("") && OneLine(" ") && OneLine(",") && OneLine("=<masked>")
    ensures OneLine("authorization") && OneLine("proxy-authorization") && OneLine("x-api-key")
    ensures OneLine("sensitive_headers=none") && OneLine("sensitive_headers=")
    ensures OneLine(" trace_id=") && OneLine(" stage=") && OneLine(" duration_ms=")
    ensures OneLine(" rpc_method=") && OneLine(" rpc_id=") && OneLine(" tool=")
    ensures OneLine(" rpc_outcome=") && OneLine(" outcome=") && OneLine(" msg=") && OneLine(" body=")
    ensures OneLine(" error=") && OneLine(" result=") && OneLine(" path=") && OneLine(" body_bytes=")
    ensures OneLine("mcp.request method=") && OneLine("mcp.stage") && OneLine("mcp.response status=")
    ensures OneLine(" rpc_meta=unparseable") && OneLine(" has_body=true") && OneLine(" has_body=false")
  {
    OtherTagsAreOneLine();
  }

  lemma OtherTagsAreOneLine()
    ensures OneLine(" error=") && OneLine(" result=") && OneLine(" path=") && OneLine(" body_bytes=")
    ensures OneLine("mcp.request method=") && OneLine("mcp.stage") && OneLine("mcp.response status=")
    ensures OneLine(" rpc_meta=unparseable") && OneLine(" has_body=true") && OneLine(" has_body=false")
  {
  }

  lemma LabelledIsOneLine(tag: string, value: string)
    requires OneLine(tag)
    ensures OneLine(Labelled(tag, value)) && OneLine(IfAny(tag, value))
  {
    hide Brief;
    BriefIsBrief(value);
    OneLineConcat(tag, Brief(value));
  }

  lemma {:induction false} MaskedEntries(names: set<string>, entry: string)
    requires entry in Masked(names)
    ensures exists n: string :: IsSensitive(n) && entry == MaskedName(n)
    decreases |names|
  {
    hide IsSensitive, MaskedName;
    var n :| n in names && Masked(names) == (if IsSensitive(n) then multiset{MaskedName(n)} else multiset{}) +
      Masked(names - {n});
    if entry in Masked(names - {n}) {
      MaskedEntries(names - {n}, entry);
    }
  }

  lemma {:induction false} CommaJoinedIsOneLine(values: seq<string>)
    requires forall v: string :: v in values ==> OneLine(v)
    ensures OneLine(CommaJoined(values))
  {
    hide OneLine;
    TagsAreOneLine();
    if |values| == 1 {
      assert values[0] in values;
    } else if |values| > 1 {
      var front, last := values[..|values| - 1], values[|values| - 1];
      assert forall v: string :: v in front ==> v in values;
      CommaJoinedIsOneLine(front);
      OneLineConcat(CommaJoined(front), ",");
      OneLineConcat(CommaJoined(front) + ",", last);
    }
  }

  lemma SensitiveIsOneLine(names: set<string>, summary: string)
    requires IsSensitiveSummary(names, summary)
    ensures OneLine(summary)
  {
    hide OneLine, CommaJoined, Masked, Ordered;
    TagsAreOneLine();
    var list: seq<string> :| Ordered(list) && multiset(list) == Masked(names) && summary == SensitiveText(list);
    forall v: string | v in list ensures OneLine(v) {
      assert v in multiset(list);
      MaskedEntries(names, v);
      var n: string :| IsSensitive(n) && v == MaskedName(n);
      OneLineConcat(ToLower(n), "=<masked>");
    }
    CommaJoinedIsOneLine(list);
    OneLineConcat("sensitive_headers=", CommaJoined(list));
  }

  lemma DecimalIsOneLine(tag: string, n: int)
    requires OneLine(tag)
    ensures OneLine(tag + DecimalText(n))
  {
    OneLineConcat(tag, DecimalText(n));
  }

  lemma TraceIsOneLine(ctx: TraceContext)
    ensures OneLine(TraceText(ctx))
  {
    hide OneLine, IfAny, DecimalText;
    TagsAreOneLine();
    LabelledIsOneLine(" trace_id=", ctx.traceId);
    LabelledIsOneLine(" stage=", ctx.stage);
    DecimalIsOneLine(" duration_ms=", ctx.durationMs);
    OneLineConcat(IfAny(" trace_id=", ctx.traceId), IfAny(" stage=", ctx.stage));
    OneLineConcat(IfAny(" trace_id=", ctx.traceId) + IfAny(" stage=", ctx.stage),
      " duration_ms=" + DecimalText(ctx.durationMs));
  }

  lemma ThreeAreOneLine(a: string, b: string, c: string)
    requires OneLine(a) && OneLine(b) && OneLine(c)
    ensures OneLine(a + b + c)
  {
    OneLineConcat(a, b);
    OneLineConcat(a + b, c);
  }

  lemma ContextIsOneLine(ctx: TraceContext)
    ensures OneLine(ContextText(ctx)) && OneLine(OutcomeContext(ctx))
  {
    hide OneLine, IfAny;
    TagsAreOneLine();
    LabelledIsOneLine(" rpc_method=", ctx.rpcMethod);
    LabelledIsOneLine(" rpc_id=", ctx.rpcId);
    LabelledIsOneLine(" tool=", ctx.toolName);
    LabelledIsOneLine(" rpc_outcome=", ctx.outcome);
    ThreeAreOneLine(IfAny(" rpc_method=", ctx.rpcMethod), IfAny(" rpc_id=", ctx.rpcId), IfAny(" tool=", ctx.toolName));
    ThreeAreOneLine(IfAny(" rpc_id=", ctx.rpcId), IfAny(" rpc_outcome=", ctx.outcome), IfAny(" tool=", ctx.toolName));
  }

  lemma RpcRequestIsOneLine(meta: RequestMeta, ctx: TraceContext)
    ensures OneLine(RpcRequestText(meta, ctx))
  {
    hide OneLine, Labelled, Prefer;
    TagsAreOneLine();
    var rpcMethod := Prefer(ctx.rpcMethod, meta.rpcMethod, "(missing)");
    var rpcId := Prefer(ctx.rpcId, meta.rpcId, "(missing)");
    var tool := Prefer(ctx.toolName, meta.toolName, "");
    LabelledIsOneLine(" rpc_method=", rpcMethod);
    LabelledIsOneLine(" rpc_id=", rpcId);
    LabelledIsOneLine(" tool=", if tool == "" then "(missing)" else tool);
    ThreeAreOneLine(Labelled(" rpc_method=", rpcMethod), Labelled(" rpc_id=", rpcId),
      if tool != "" || rpcMethod == "tools/call" then Labelled(" tool=", if tool == "" then "(missing)" else tool)
        else "");
  }

  lemma RpcResponseIsOneLine(meta: ResponseMeta, ctx: TraceContext)
    ensures OneLine(RpcResponseText(meta, ctx))
  {
    hide OneLine, Labelled, IfAny, Prefer, OutcomeName;
    TagsAreOneLine();
    var rpcId := Prefer(ctx.rpcId, meta.rpcId, "");
    var outcome := if ctx.outcome != "" then ctx.outcome else OutcomeName(meta.outcome);
    LabelledIsOneLine(" rpc_id=", rpcId);
    LabelledIsOneLine(" rpc_outcome=", outcome);
    LabelledIsOneLine(" tool=", ctx.toolName);
    ThreeAreOneLine(IfAny(" rpc_id=", rpcId), Labelled(" rpc_outcome=", outcome), IfAny(" tool=", ctx.toolName));
    var last := if meta.error.Some? then Labelled(" error=", meta.error.value)
                else if meta.result.Some? then Labelled(" result=", meta.result.value) else "";
    if meta.error.Some? {
      LabelledIsOneLine(" error=", meta.error.value);
    } else if meta.result.Some? {
      LabelledIsOneLine(" result=", meta.result.value);
    }
    OneLineConcat(IfAny(" rpc_id=", rpcId) + Labelled(" rpc_outcome=", outcome) + IfAny(" tool=", ctx.toolName), last);
  }

  /** Whatever a request holds, its summary is one line. */
  lemma RequestSummaryIsOneLine(request: HttpRequest, ctx: TraceContext, summary: string)
    requires IsRequestSummary(request, ctx, summary)
    ensures OneLine(summary)
  {
    hide OneLine, Labelled, TraceText, RpcRequestText, ContextText, RequestMetaOf, DecimalText, IsSensitiveSummary;
    TagsAreOneLine();
    var s: string :| IsSensitiveSummary(request.headers.Keys, s) &&
      summary == RequestText(request.verb, request.path, request.body, ctx) + s;
    SensitiveIsOneLine(request.headers.Keys, s);
    var meta := RequestMetaOf(request.body);
    var a, b, c := Labelled("mcp.request method=", request.verb), TraceText(ctx), Labelled(" path=", request.path);
    var d := if meta.parseable then RpcRequestText(meta, ctx) else " rpc_meta=unparseable" + ContextText(ctx);
    var e := " body_bytes=" + DecimalText(|request.body|);
    LabelledIsOneLine("mcp.request method=", request.verb);
    LabelledIsOneLine(" path=", request.path);
    TraceIsOneLine(ctx);
    ThreeAreOneLine(a, b, c);
    RpcRequestIsOneLine(meta, ctx);
    ContextIsOneLine(ctx);
    OneLineConcat(" rpc_meta=unparseable", ContextText(ctx));
    DecimalIsOneLine(" body_bytes=", |request.body|);
    ThreeAreOneLine(a + b + c, d, e);
    ThreeAreOneLine(a + b + c + d + e, " ", s);
  }

  /** Whatever a stage or an answer holds, its summary is one line. */
  lemma LifecycleSummaryIsOneLine(ctx: TraceContext, message: string)
    ensures OneLine(LifecycleText(ctx, message))
  {
    hide OneLine, IfAny, TraceText, ContextText;
    TagsAreOneLine();
    TraceIsOneLine(ctx);
    ContextIsOneLine(ctx);
    ThreeAreOneLine("mcp.stage", TraceText(ctx), ContextText(ctx));
    LabelledIsOneLine(" outcome=", ctx.outcome);
    LabelledIsOneLine(" msg=", message);
    ThreeAreOneLine("mcp.stage" + TraceText(ctx) + ContextText(ctx), IfAny(" outcome=", ctx.outcome),
      IfAny(" msg=", message));
  }

  lemma ResponseSummaryIsOneLine(r: HttpResponse, ctx: TraceContext)
    ensures OneLine(ResponseText(r, ctx))
  {
    hide OneLine, Labelled, TraceText, OutcomeContext, RpcResponseText, ResponseMetaOf, DecimalText;
    TagsAreOneLine();
    DecimalIsOneLine("mcp.response status=", r.status);
    TraceIsOneLine(ctx);
    ContextIsOneLine(ctx);
    var a, b := "mcp.response status=" + DecimalText(r.status), TraceText(ctx);
    var c := if r.hasBody then " has_body=true" else " has_body=false";
    ThreeAreOneLine(a, b, c);
    var shown := if r.body == "" then "(empty)" else r.body;
    RpcResponseIsOneLine(ResponseMetaOf(r.body), ctx);
    LabelledIsOneLine(" body=", shown);
    ThreeAreOneLine(" rpc_meta=unparseable", OutcomeContext(ctx), Labelled(" body=", shown));
    OneLineConcat(a + b + c, OutcomeContext(ctx));
    OneLineConcat(a + b + c, RpcResponseText(ResponseMetaOf(r.body), ctx));
    OneLineConcat(a + b + c, " rpc_meta=unparseable" + OutcomeContext(ctx) + Labelled(" body=", shown));
  }

  /** What stands in an answer's summary before its outcome. */
  function BeforeOutcome(r: HttpResponse, ctx: TraceContext): string {
    ("mcp.response status=" + DecimalText(r.status)) + TraceText(ctx) + " has_body=true" +
      IfAny(" rpc_id=", Prefer(ctx.rpcId, ResponseMetaOf(r.body).rpcId, ""))
  }

  lemma OutcomeNamesAreBrief(o: RpcOutcome)
    ensures Labelled(" rpc_outcome=", OutcomeName(o)) == " rpc_outcome=" + OutcomeName(o)
  {
    hide Brief;
    assert OneLine("unknown") && OneLine("success") && OneLine("error");
    BriefIsBrief(OutcomeName(o));
  }

  /** The summary of an answer that parses shows, at its place, the outcome read from its body. */
  lemma SummaryShowsOutcome(r: HttpResponse, ctx: TraceContext)
    requires r.hasBody && ctx.outcome == "" && ResponseMetaOf(r.body).parseable
    ensures BeforeOutcome(r, ctx) +
            (" rpc_outcome=" + OutcomeName(ResponseMetaOf(r.body).outcome)) <= ResponseText(r, ctx)
  {
    hide IfAny, Labelled, TraceText, OutcomeContext, ResponseMetaOf, DecimalText, OutcomeName, Prefer;
    var meta := ResponseMetaOf(r.body);
    OutcomeNamesAreBrief(meta.outcome);
    var head := ("mcp.response status=" + DecimalText(r.status)) + TraceText(ctx) + " has_body=true";
    var id := IfAny(" rpc_id=", Prefer(ctx.rpcId, meta.rpcId, ""));
    var outcome := " rpc_outcome=" + OutcomeName(meta.outcome);
    var tool := IfAny(" tool=", ctx.toolName);
    var last := if meta.error.Some? then Labelled(" error=", meta.error.value)
                else if meta.result.Some? then Labelled(" result=", meta.result.value) else "";
    assert RpcResponseText(meta, ctx) == id + outcome + tool + last;
    Front(head, id, outcome, tool, last);
  }

  lemma Front(head: string, id: string, outcome: string, tool: string, last: string)
    ensures head + id + outcome <= head + (id + outcome + tool + last)
  {
    assert head + (id + outcome + tool + last) == (head + id + outcome) + (tool + last);
  }
}

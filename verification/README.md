# A verified model of the windbg-mcp server

The repository is a WinDbg extension that serves the Model Context Protocol over HTTP with a stack
written by hand: a JSON scanner and printer, a JSON-RPC router, HTTP framing, a log of what passes
through, the capture of a debugger command's output, and the start and clean-up of the server
around them. This project models that code in Dafny and proves what it does, from the bytes a
client sends to the command the debugger is given and back to the bytes of the answer.

One `char` of a Dafny `string` stands for one byte; no theorem restricts the bytes of a text beyond
what its statement says.

| file | what it holds |
|---|---|
| `Bytes.dfy`, `Decimals.dfy` | white space, trimming, substrings; decimal numbers as text |
| `JsonGrammar.dfy` | the concrete syntax: trees that remember every byte, `Render`, and which trees are well formed |
| `JsonReader.dfy` | reading a text into its tree, sound and complete for the grammar |
| `JsonScanner.dfy` | the position-advancing parsers, as methods proved against the reader |
| `JsonFields.dfy` | extraction at the top level, last-wins maps, getters, rescanning of stored substrings |
| `JsonStrings.dfy` | `Escape`, the string round trip, UTF-8 |
| `JsonRpc.dfy`, `JsonRpcTheorems.dfy` | the router over an arbitrary executor; what its answers look like when read back |
| `Counterexamples.dfy` | inputs on which extractor and router do less than one would expect |
| `CommandDelivery.dfy` | which requests run which command, read off the syntax tree alone |
| `AnswerContents.dfy` | what each request is answered, read off the trees of request and answer alone |
| `IoEcho.dfy`, `LogLines.dfy` | the second reader of requests and answers; the log lines |
| `LogContents.dfy` | what the log lines show, read off the trees |
| `Http.dfy`, `HttpFraming.dfy` | text search, lines; receiving, sending, parsing and printing messages |
| `HttpFramingTheorems.dfy`, `HttpRoundTrip.dfy` | independence of chunks; requests and answers survive the trip |
| `HttpStart.dfy` | the search for a free port |
| `OutputCapture.dfy` | the line filter and truncation of command output |
| `Extension.dfy`, `ExtensionTheorems.dfy` | handling of a request, its stage log, trace ids, whole runs |
| `Service.dfy` | serving connections; the end-to-end theorem |
| `Lifecycle.dfy`, `LifecycleRefinement.dfy` | host calls and the worker thread as steps under one mutex; the server object has the effect of its steps |

Functions that the code and its theorems share are pinned from outside. Answers, refusals, responses
and log lines are read back and compared with the syntax tree of the request, with the bytes of the
message, and with the words the program promises, without the functions that print them
(`AnswerContents`, `LogContents`, `ExtensionTheorems.RefusalExactly`, `HttpRoundTrip.ResponseReadsBack`,
`OutputCapture.CaptureMeaning`).

The code keeps `std::string` values, maps and counters that it updates in loops; those loops are
methods here, each proved equal to a function of its inputs, and the theorems are lemmas about
those functions. A network, a debugger and a socket library are objects whose answers are arbitrary
(`HttpFraming.Connection`, `JsonRpc.Executor`, `HttpStart.Winsock`). The threads are a transition
system, because what matters about them is every interleaving.

## Where the code does not do what one would expect

These are proved as they are, each with the exact condition.

- The last header line never reaches the header map, because the block that is parsed ends before
  its line end (`src/mcp/http_server.cpp:156`, `:174-178`). The headers of a request that was received
  are all there exactly when some earlier field has the name and the value of the last one and no
  field between them has that name (`HttpRoundTrip.AllHeadersArrive`). A request whose only header is
  its length arrives without any (`HttpRoundTrip.LastHeaderIsLost`).
- A stream longer than the size limit is judged by its chunks exactly when its request ends within the
  last 4095 bytes below the limit (`HttpFramingTheorems.IndependentAboveLimit`); the end is the end of
  the header and as many bytes as it announces. `HttpRoundTrip.SomeCutsMatter` gives such a stream.
  Up to the limit chunks never matter.
- A command's output that arrives cut inside a line is filtered piece by piece. Any list of fragments
  is captured like its join under every pattern and limit exactly when every cut is at a line end
  (`OutputCapture.CutMattersInsideLines`).
- Scalars are not checked: any run of bytes up to a comma, closing bracket or white space is one, if
  it does not begin like another kind of value. Every number and literal of RFC 8259 is such a run
  (`JsonGrammar.ScalarsOfRfc8259`), and `01x` is one that is neither
  (`JsonGrammar.ScalarsAreNotChecked`): `{"a":01x}` is accepted with that field
  (`Counterexamples.UncheckedScalarIsExtracted`). A `\u` escape of a surrogate is encoded on its own; the
  result decodes as UTF-8 exactly when the code point is no surrogate
  (`JsonStrings.UnicodeEscapeMeaning`), and pairs are never combined
  (`JsonStrings.SurrogatePairsStayApart`).
- A failing notification is answered with a body and status 200, as one of an unknown method
  (`Counterexamples.FailingNotificationIsAnswered`). There is no body exactly for a
  notification that did not fail, and an error status exactly for a body that does not parse
  (`JsonRpcTheorems.SilentExactlyForNotifications`).
- Clean-up joins the worker while it holds the mutex a worker with a request waits for. That is the
  one way for the system to stand still, and it is reachable
  (`Lifecycle.StuckExactlyWhenWaiting`, `Lifecycle.StandstillIsReachable`). Safety holds in every run.

## Model

| member | source | states |
|---|---|---|
| `JsonFields.GrammarEquivalence` | src/mcp/json.cpp:323-417 | a text is accepted as the object `o` if and only if, up to blanks at both ends, it is the rendering of the well-formed tree `o`; so no text has two readings |
| `JsonFields.FieldsMeaning` | src/mcp/json.cpp:374-379 | the field map holds at a key the verbatim text of the last member whose decoded key it is, and nothing else |
| `JsonFields.ExtractorAgreesWithSkipper` | src/mcp/json.cpp:161-227 | the top-level extractor accepts a text exactly when the nested skipper succeeds at the first non-blank and only blanks follow, and both read the same tree |
| `JsonFields.SubstringClosure` | src/mcp/json.cpp:419-484 | every stored raw value is one value from end to end, is trimmed, and each getter accepts it exactly when its first byte says so |
| `JsonGrammar.ScalarsOfRfc8259` | src/mcp/json.cpp:302-318 | every number and literal of RFC 8259 is a scalar of the grammar |
| `JsonGrammar.ScalarsAreNotChecked` | src/mcp/json.cpp:302-318 | a scalar of the grammar need not be one of RFC 8259 |
| `Counterexamples.UncheckedScalarIsExtracted` | src/mcp/json.cpp:302-318 | the text `{"a":01x}` is accepted and its field `a` is `01x`, which is no scalar of RFC 8259 |
| `JsonReader.ReadValueComplete` | src/mcp/json.cpp:281-319 | the rendering of any well-formed tree, wherever it stands in a text, is read back as that tree and consumed exactly |
| `JsonReader.ReadValueSound` | src/mcp/json.cpp:281-319 | whatever is read as a value is a well-formed tree whose rendering stands where it was read |
| `JsonReader.ReadMembersComplete` | src/mcp/json.cpp:178-226 | the same completeness for the members of an object with any white space between tokens |
| `JsonReader.ReadMembersSound` | src/mcp/json.cpp:178-226 | the same soundness for the members of an object |
| `JsonScanner.SkipWhitespace` | src/mcp/json.cpp:15-19 | stops at the first position that holds none of the six blank bytes |
| `JsonScanner.ParseJsonString` | src/mcp/json.cpp:57-157 | accepts exactly the string tokens of the grammar, yields their decoded bytes and stops behind the closing quote; otherwise reports an error |
| `JsonReader.StringErrors` | src/mcp/json.cpp:57-157 | where a string token is missing there is no quote, or good pieces stand behind the quote and right behind them what the error names: the end, a control byte, or a backslash with nothing, no known byte or no four hex digits behind it |
| `JsonScanner.AppendUtf8` | src/mcp/json.cpp:35-55 | appends the UTF-8 encoding of the code point |
| `JsonScanner.SkipJsonObject` | src/mcp/json.cpp:161-227 | succeeds exactly on an object of the grammar, ends behind it and terminates; otherwise reports an error |
| `JsonScanner.SkipJsonArray` | src/mcp/json.cpp:229-279 | the same for arrays |
| `JsonScanner.SkipJsonValue` | src/mcp/json.cpp:281-319 | the same for any value |
| `JsonScanner.ParseObjectFields` | src/mcp/json.cpp:323-417 | yields the last-wins map of the object a text is, or the error it fails with |
| `JsonScanner.Escape` | src/mcp/json.cpp:486-527 | prints the string token contents of a text, which the lemmas below read back |
| `JsonScanner.Trim` | src/mcp/json.cpp:529-541 | the text without the blanks at both ends |
| `JsonScanner.TryGetStringField` | src/mcp/json.cpp:419-439 | the decoded string a field holds, if its raw text is one string token |
| `JsonScanner.TryGetObjectField` | src/mcp/json.cpp:465-475 | the field map of the object a field holds, if its raw text is one |
| `JsonScanner.TryGetRawField` | src/mcp/json.cpp:477-484 | the trimmed raw text of a field |
| `JsonFields.IntReads` | src/mcp/json.cpp:441-463 | a text is an integer field exactly if it is digits behind at most one sign, worth a number of 32 bits |
| `Bytes.TrimExact` | src/mcp/json.cpp:529-541 | trimming undoes the addition of any blanks to a trimmed text |
| `Bytes.TrimSplits` | src/mcp/json.cpp:529-541 | what trimming leaves has no blank at its ends, and all it takes away is blank |
| `JsonStrings.StringRoundTrip` | src/mcp/json.cpp:57-157 | between any two texts, a quoted escaped text is read as that text and the reader stops exactly behind it |
| `JsonStrings.EscapeClean` | src/mcp/json.cpp:486-527 | scanned with each backslash consuming the next byte, escaped text holds no byte below 0x20 and no quote that is not consumed |
| `JsonStrings.EscapeIsShortest` | src/mcp/json.cpp:486-527 | no spelling of a byte that is read back is shorter than the one printed, only quote, backslash and control bytes are escaped, and hex digits are capitals |
| `JsonStrings.ShortEscapeMeaning` | src/mcp/json.cpp:85-110 | a backslash and one byte are an escape exactly for eight bytes, and stand for the codes 8, 12, 10, 13, 9 or the byte itself |
| `JsonStrings.HexValueReads` | src/mcp/json.cpp:111-133 | four hex digits in either case are worth the sum of their values by place, the most significant first |
| `JsonStrings.Utf8Decodes` | src/mcp/json.cpp:35-55 | a decoder after RFC 3629 reads an emitted code point back, whatever follows, except a surrogate, which it rejects |
| `JsonStrings.Utf8PrefixFree` | src/mcp/json.cpp:35-55 | no encoding of a code point is the beginning of another's; in particular no two are equal |
| `JsonStrings.UnicodeEscapeMeaning` | src/mcp/json.cpp:111-133 | a `\u` escape in hex digits of either case decodes to the bytes of its code point, valid UTF-8 exactly for non-surrogates |
| `JsonStrings.SurrogatePairsStayApart` | src/mcp/json.cpp:111-133 | two escapes of a surrogate pair are read as two encodings, never as that of the code point the pair stands for |
| `JsonRpc.BuildJsonRpcSuccess` | src/mcp/json_rpc.cpp:21-30 | the success envelope with the raw id and result spliced in |
| `JsonRpc.BuildJsonRpcError` | src/mcp/json_rpc.cpp:32-44 | the error envelope with the raw id, the code and the escaped message |
| `JsonRpc.JsonRpcRouter.HandleToolsCall` | src/mcp/json_rpc.cpp:90-151 | calls the executor once with the command and options of the request and returns its printed result, or fails with invalid params and calls nothing |
| `JsonRpc.JsonRpcRouter.HandleJsonRpcPost` | src/mcp/json_rpc.cpp:180-242 | the answer and the executor calls are those the plan of the body prescribes, given any executor |
| `JsonRpcTheorems.ResponseWellFormed` | src/mcp/json_rpc.cpp:21-44 | every answer with a body is an object with exactly the keys `jsonrpc`, `id` and one of `result` and `error`, whose id is the raw id of the request byte for byte, or `null` |
| `JsonRpcTheorems.AnswerShape` | src/mcp/json_rpc.cpp:180-242 | every answer is the envelope of a well-formed value, a result object when dispatch went well, with `isError` as the command ended |
| `JsonRpcTheorems.SilentExactlyForNotifications` | src/mcp/json_rpc.cpp:180-242 | an answer has no body exactly for a version 2.0 request without an id whose method is missing or did not fail; its status is 202 then, 400 for a body that does not parse, and 200 otherwise |
| `Counterexamples.FailingNotificationIsAnswered` | src/mcp/json_rpc.cpp:233-236 | a notification of any unknown method is answered with an error body, the id `null` and status 200 |
| `JsonRpcTheorems.EnvelopeFields` | src/mcp/json_rpc.cpp:21-44 | an envelope around any well-formed id and payload reads back as its three fields and nothing else |
| `JsonRpcTheorems.ToolResultIsRecord` | src/mcp/json_rpc.cpp:136-150 | the printed tool result is the rendering of a well-formed object, whatever the executor put out |
| `JsonRpcTheorems.CommandAnswer` | src/mcp/json_rpc.cpp:136-151 | a request that runs a command is answered with a body exactly if it has an id, and the body reads back as that id and the result of that command |
| `JsonRpcTheorems.RequestIdIsValue` | src/mcp/json_rpc.cpp:187-196 | the id an answer carries, the request's raw id or `null`, is the rendering of a well-formed value |
| `CommandDelivery.CommandsFollowTheTree` | src/mcp/json_rpc.cpp:90-151 | a request that is an object runs exactly the command its syntax tree asks for, through three levels of re-read substrings |
| `CommandDelivery.NoObjectNoCommand` | src/mcp/json_rpc.cpp:180-200 | a body that is no object runs nothing |
| `CommandDelivery.EscapedCommandArrives` | src/mcp/json_rpc.cpp:117-134 | a non-empty command printed by `Escape` reaches the executor once and byte for byte, in any rendering of the request |
| `CommandDelivery.OtherMembersDoNotMatter` | src/mcp/json.cpp:374-379 | a member with another key changes no lookup, wherever it stands |
| `AnswerContents.AnswerFollowsTheTree` | src/mcp/json_rpc.cpp:153-242 | every request object is answered as its tree says: nothing with 202 exactly where it is silent; else status 200 and one object with the keys `jsonrpc`, `id` and one more, the id being its own tree or `null`, and under `error` exactly the code and message of the first thing wrong, or under `result` what its method promises |
| `AnswerContents.HandshakeReads` | src/mcp/json_rpc.cpp:46-56 | `initialize` is answered with exactly the protocol version 2025-11-25, the tools offered and the name and version of the server |
| `AnswerContents.ToolListReads` | src/mcp/json_rpc.cpp:65-88 | `tools/list` is answered with exactly one tool, `windbg.eval`, its description and the schema of its three arguments |
| `AnswerContents.ToolResultReads` | src/mcp/json_rpc.cpp:136-150 | a tool result is one text item, the output, the error message or what stands for an empty one, and the flag whether the command failed |
| `AnswerContents.CommandAnswerText` | src/mcp/json_rpc.cpp:136-151 | a request whose tree asks for a command is answered under its id with the text and flag the execution of that very command calls for |
| `AnswerContents.DispatchFollowsTheTree` | src/mcp/json_rpc.cpp:153-174 | each method ends in the error or the result that goes with its name in the tree |
| `AnswerContents.CallFollowsTheTree` | src/mcp/json_rpc.cpp:97-134 | a `tools/call` request fails with the message for the first of its parameters the tree lacks, or runs the command of the tree |
| `AnswerContents.NoObjectIsParseError` | src/mcp/json_rpc.cpp:180-189 | a body that is no object is answered status 400 and error -32700 under the id `null` |
| `AnswerContents.NoBraceIsParseError` | src/mcp/json.cpp:336-341 | one that begins with no brace is told so |
| `AnswerContents.MoreIsParseError` | src/mcp/json.cpp:396-404 | one that goes on behind its object is told so |
| `IoEcho.ParseRequestIoMeta` | src/mcp/io_echo.cpp:114-144 | the method, raw id and tool name of a body, by the same extraction the router uses |
| `IoEcho.ParseResponseIoMeta` | src/mcp/io_echo.cpp:146-181 | the id, error, result and outcome read back from an answer |
| `IoEcho.RequestMetaFollowsTheTree` | src/mcp/io_echo.cpp:114-144 | of a request the text of its method, the raw text of its id and, for a call, the name of the tool are noted as its tree holds them, of anything but an object nothing |
| `IoEcho.ResponseMetaFollowsTheTree` | src/mcp/io_echo.cpp:146-181 | of an answer the raw id, error and result are noted, and the outcome its tree states |
| `IoEcho.LoggedOutcomeTellsTheTruth` | src/mcp/io_echo.cpp:146-181 | on every body the router produces the logged outcome is success exactly when dispatch and the command succeeded, error otherwise, never unknown, whatever bytes output and id hold |
| `LogLines.TruncateForSummary` | src/mcp/io_echo.cpp:63-72 | the value on one line, cut at 160 bytes with a suffix |
| `LogLines.BriefIsBrief` | src/mcp/io_echo.cpp:48-72 | a value in a summary is its first 160 bytes with line breaks and tabs as blanks, and the suffix exactly if there are more; a short one-line value is unchanged |
| `LogLines.BuildSensitiveHeadersSummary` | src/mcp/io_echo.cpp:87-112 | visiting the header map in any order gives the masked names of the sensitive headers in byte order |
| `LogLines.SensitiveSummaryUnique` | src/mcp/io_echo.cpp:105-111 | the header summary is determined by the set of header names, not by the order of visits or any value |
| `LogLines.SensitiveHeadersShown` | src/mcp/io_echo.cpp:35-38 | the header summary lists, in order, each of the three sensitive names as often as the request has it in some case of letters, or says that there is none |
| `LogLines.LowerNamesShown` | src/mcp/io_echo.cpp:87-112 | of lower-case names it shows those of `authorization`, `proxy-authorization` and `x-api-key` that are there, in this order, masked and parted by commas |
| `LogLines.HeaderValuesAreNotShown` | src/mcp/io_echo.cpp:271-295 | two requests that differ in header values alone have the same summary |
| `LogLines.BuildRequestIoSummary` | src/mcp/io_echo.cpp:271-295 | a request's summary is its labelled values followed by its header summary |
| `LogLines.BuildLifecycleIoSummary` | src/mcp/io_echo.cpp:301-321 | a stage's summary shows the context's values that are not empty, and the message |
| `LogLines.BuildResponseIoSummary` | src/mcp/io_echo.cpp:327-363 | an answer's summary by whether it has a body and whether that parses |
| `LogContents.RequestLineReads` | src/mcp/io_echo.cpp:271-295 | the line for a request shows verb, trace id, stage, duration, path, the method, id and tool of its tree or that they are missing, the size of the body and the header summary, and nothing else |
| `LogContents.StageLineReads` | src/mcp/io_echo.cpp:301-321 | the line for a stage shows trace id, stage, duration, what the context says of the request, outcome and message |
| `LogContents.AnswerLineReads` | src/mcp/io_echo.cpp:327-346 | the line for an answer that is an object shows status, trace id, stage, duration, the id and outcome its tree states, the tool, and the error or the result |
| `LogContents.SilentLineReads` | src/mcp/io_echo.cpp:327-343 | the line for an answer without a body shows status, trace id, stage, duration, and the id and tool of its context |
| `LogLines.RequestSummaryIsOneLine` | src/mcp/io_echo.cpp:271-295 | no request can put a line break or tab into its summary |
| `LogLines.LifecycleSummaryIsOneLine` | src/mcp/io_echo.cpp:301-321 | nor can a stage's context or message |
| `LogLines.ResponseSummaryIsOneLine` | src/mcp/io_echo.cpp:327-363 | nor can an answer |
| `HttpFraming.ParseContentLength` | src/mcp/http_server.cpp:115-139 | succeeds exactly on non-empty digits between blanks worth at most 2 MiB, with their value, and its arithmetic fits 32 bits |
| `HttpFraming.ScanContentLength` | src/mcp/http_server.cpp:230-256 | the length the lines of a header block announce |
| `HttpRoundTrip.BodyLengthMeaning` | src/mcp/http_server.cpp:230-256 | one unusable length line spoils the request; otherwise the last length line counts, or zero |
| `HttpFraming.ParseHttpRequest` | src/mcp/http_server.cpp:141-203 | the request that header lines and body amount to, without the last line, or the first error |
| `HttpRoundTrip.FirstLineParses` | src/mcp/http_server.cpp:100-113 | a request line of verb, path and rest gives back verb and path |
| `HttpRoundTrip.FirstLineSound` | src/mcp/http_server.cpp:100-113 | only such lines parse |
| `HttpRoundTrip.HeadVerdict` | src/mcp/http_server.cpp:156-203 | a head fails as malformed request line exactly if it is one line, as invalid request line exactly if the first lacks a second space, as malformed header exactly if a line between first and last has no colon, and is a request otherwise |
| `HttpRoundTrip.NamesAreLower` | src/mcp/http_server.cpp:194-196 | all names in a header map are lower-case |
| `HttpFraming.ReceiveRequest` | src/mcp/http_server.cpp:205-271 | the outcome of receiving the chunks a connection delivers |
| `HttpFramingTheorems.ReceiveMeaning` | src/mcp/http_server.cpp:213-270 | receiving any stream in closed form: the verdict on the longest run of chunks within the limit |
| `HttpFramingTheorems.InspectIsStable` | src/mcp/http_server.cpp:228-264 | once a request is complete or refused, further bytes change nothing |
| `HttpFramingTheorems.ChunkingIndependence` | src/mcp/http_server.cpp:205-271 | up to the size limit the outcome depends on the bytes alone, however they are cut, even inside the blank line |
| `HttpFramingTheorems.IndependentAboveLimit` | src/mcp/http_server.cpp:209-226 | above the limit the cut matters exactly when the request, header and announced body, ends within the last 4095 bytes below it |
| `HttpFramingTheorems.SettledExactly` | src/mcp/http_server.cpp:228-264 | a prefix of a stream settles its request exactly if it reaches the end of that request |
| `HttpRoundTrip.SomeCutsMatter` | src/mcp/http_server.cpp:209-226 | there is a stream whose outcome depends on its chunks: 64 KiB of header, 2 MiB of body and one byte more |
| `HttpRoundTrip.RequestRoundTrip` | src/mcp/http_server.cpp:141-271 | a request written out with any fields that announce the size of its body, or none and no body, arrives with its verb, path and body exactly and the last-wins map of all fields but the last, in any chunks, whatever follows it |
| `HttpRoundTrip.RequestOutcome` | src/mcp/http_server.cpp:141-271 | what comes of any request head with any text behind it, in any chunks: an unusable length, too little text, no field at all, or the request |
| `HttpRoundTrip.AnnouncedMeaning` | src/mcp/http_server.cpp:230-256 | fields announce a length exactly when every length field is usable, and it is that of the last one, or zero without one |
| `HttpRoundTrip.OrdinaryFirstLine` | src/mcp/http_server.cpp:238-249 | a request line whose verb has no colon and whose path starts with a slash is never taken for a length line |
| `HttpRoundTrip.AllHeadersArrive` | src/mcp/http_server.cpp:174-178 | a received request has the map of all its fields exactly when an earlier field has the name and value of the last one and none between them that name |
| `HttpRoundTrip.HeaderMapMeaning` | src/mcp/http_server.cpp:194-196 | the header map holds at a name the value of the last field of that name, and nothing else |
| `HttpRoundTrip.LastHeaderIsLost` | src/mcp/http_server.cpp:174-178 | a request whose only field is its length arrives with an empty header map |
| `HttpFraming.BuildHttpResponseText` | src/mcp/http_server.cpp:273-290 | status line, headers, a blank line and the body |
| `HttpRoundTrip.ResponseRoundTrip` | src/mcp/http_server.cpp:273-290 | the response splits at its first blank line into its lines and exactly its body, and its length field reads back as the body's size up to the reader's bound |
| `HttpRoundTrip.ResponseReadsBack` | src/mcp/http_server.cpp:273-290 | a client reads off the text of any response its status with the phrase for it, `close`, its content type and the size of its body, and the body, exactly |
| `HttpFraming.SendAll` | src/mcp/http_server.cpp:84-98 | sends a prefix of the text, reports success if and only if it sent all of it, and does so whenever every send takes something and the length fits 31 bits |
| `HttpStart.ResolveMaxPortAttempts` | src/mcp/http_server.cpp:26-31 | the number asked for, or sixteen where that is nothing or zero |
| `HttpStart.TryPort` | src/mcp/http_server.cpp:412-452 | one attempt keeps a listening socket or nothing |
| `HttpStart.HttpServer.FindPort` | src/mcp/http_server.cpp:404-480 | the loop over the ports reports, and asks for, exactly what the search function says |
| `HttpStart.HttpServer.Settle` | src/mcp/http_server.cpp:415-483 | an attempt that met no conflict ends the search with a listening socket and its bound port, or with its error, as the search function says |
| `HttpStart.HttpServer.FailStart` | src/mcp/http_server.cpp:364-380 | gives back the listening socket, if any, and the start-up of the library |
| `HttpStart.HttpServer.Start` | src/mcp/http_server.cpp:326-483 | reports the search for a port, or nothing where it fails before; success leaves one new socket and one start-up held, failure none; a running server is refused and loses sight of its socket |
| `HttpStart.HttpServer.Stop` | src/mcp/http_server.cpp:531-559 | gives back the listening socket and the start-up a server holds, each once, and changes nothing on a stopped server |
| `HttpStart.HttpServer.StartAndStop` | src/mcp/http_server.cpp:326-559 | a start, however it ends, followed by a stop if it worked leaves the library's sockets and start-ups as they were |
| `HttpStart.FreePortIsFound` | src/mcp/http_server.cpp:405-481 | after `k` ports that fail to bind with WSAEADDRINUSE the server listens on start port plus `k` without wrapping, or on any port for port 0, with `k + 1` attempts, `k` conflicts, and fallback if and only if `k > 0` and the start port is not 0 |
| `HttpStart.ExhaustedExactlyWhenAllBusy` | src/mcp/http_server.cpp:405-467 | exhaustion is reported exactly when every port within reach fails to bind with WSAEADDRINUSE, after min(attempts allowed, ports left) attempts on as many ports in order |
| `HttpStart.OtherFailuresStop` | src/mcp/http_server.cpp:415-452 | any other failure stops the search at once with the step that failed, its port and code, and is not called exhaustion |
| `OutputCapture.OutputCaptureCallbacks.Output` | src/windbg/dbgeng_command_executor.cpp:45-84 | a fragment's pieces are taken one by one; after truncation nothing changes |
| `OutputCapture.Execute` | src/windbg/dbgeng_command_executor.cpp:127-185 | a command succeeds exactly if it is not empty and the engine ran it without failure, its output is the capture of the fragments the engine put out, and its message names the step that failed |
| `OutputCapture.CaptureIsOneShot` | src/windbg/dbgeng_command_executor.cpp:45-84 | after any fragments, under any pattern, the capture is the one-shot truncation of the matching pieces: their shortest prefix with the allowed lines, and the marker exactly if anything is missing |
| `OutputCapture.CaptureMeaning` | src/windbg/dbgeng_command_executor.cpp:45-84 | what is captured is exactly those lines of the fragments in which the pattern stands at some position, in order, up to the shortest beginning with the allowed line feeds, and the marker exactly if that is not all |
| `OutputCapture.MatchesExactly` | src/windbg/dbgeng_command_executor.cpp:65-69 | a line is kept exactly if the pattern stands in it at some position |
| `OutputCapture.PiecesExactly` | src/windbg/dbgeng_command_executor.cpp:52-63 | the pieces of a fragment are the one way to cut it into lines that are not empty and hold a line feed at the end of each but perhaps the last, and nowhere else |
| `OutputCapture.CutIsShortest` | src/windbg/dbgeng_command_executor.cpp:71-81 | the prefix kept is the shortest one with that many line feeds |
| `OutputCapture.NoPatternNoCuts` | src/windbg/dbgeng_command_executor.cpp:65-81 | without a pattern the capture depends on the whole output alone |
| `OutputCapture.LineBreaksNoCuts` | src/windbg/dbgeng_command_executor.cpp:65-69 | with any pattern the same holds for fragments that end with their lines |
| `OutputCapture.CutMattersInsideLines` | src/windbg/dbgeng_command_executor.cpp:65-69 | any list of fragments is captured like its join under every pattern and limit if and only if every cut is at a line end |
| `OutputCapture.CaptureIsBounded` | src/windbg/dbgeng_command_executor.cpp:71-81 | the line count never passes the limit, and a truncated capture has reached it and ends with the marker |
| `OutputCapture.NothingAfterTruncation` | src/windbg/dbgeng_command_executor.cpp:48-50 | a truncated capture does not change any more |
| `Extension.ExtensionState.BuildRequestTraceState` | src/dbgx-mcp.cpp:94-116 | the trace id is the request's raw id with a prefix, or the next number of a counter modulo 2^64 |
| `Extension.ExtensionState.LogStageEcho` | src/dbgx-mcp.cpp:118-129 | adds the stage to the log and its lifecycle summary to the lines |
| `Extension.ExtensionState.LogRequestEcho` | src/dbgx-mcp.cpp:131-138 | adds the reception to the log and a request summary for it to the lines |
| `Extension.ExtensionState.LogResponseEcho` | src/dbgx-mcp.cpp:140-150 | adds the stage to the log and the response summary for it to the lines |
| `Extension.ExtensionState.HandleRequest` | src/dbgx-mcp.cpp:157-222 | the response, the executor calls, the counter and the log entries of one request; the lines logged are single lines, one for each stage in order, and each is the line for its stage: the request's summary, the stage's, or that of the very response returned |
| `ExtensionTheorems.RefusedExactly` | src/dbgx-mcp.cpp:161-198 | a request reaches the router exactly if its path is `/mcp`, its verb POST and its headers let it through |
| `ExtensionTheorems.RefusalExactly` | src/dbgx-mcp.cpp:161-198 | any other request runs nothing and is answered 404 for its path, else 403 for its origin, else 400 for its protocol version, else 405 for its verb, each with its body |
| `ExtensionTheorems.LetThroughIsRouted` | src/dbgx-mcp.cpp:205-221 | a request let through runs what the router runs on its body and is answered what the router answers, as JSON, or 500 without a router |
| `ExtensionTheorems.OriginExactly` | src/mcp/http_server.cpp:305-318 | an origin is allowed exactly if it is empty or, blanks aside and in any case of letters, begins with `http://localhost` or `http://127.0.0.1` |
| `ExtensionTheorems.TraceStateFollowsTheTree` | src/dbgx-mcp.cpp:90-116 | the trace id of a request is `rpc:` and the raw id of its tree, or `local-` and the next number if there is none, which only then is used up; method, id and tool are those of the tree |
| `ExtensionTheorems.ContextIsOfRequest` | src/dbgx-mcp.cpp:75-88 | the context of every line says of the request what its tree does |
| `ExtensionTheorems.LineNamesItsStage` | src/dbgx-mcp.cpp:118-155 | each line of a request shows its trace id and behind it the name of its stage |
| `ExtensionTheorems.StoryExactly` | src/dbgx-mcp.cpp:157-222 | what a request leaves behind, stage by stage: nothing, reception and answer, or dispatch in between, with start, command and end for the call of a tool |
| `ExtensionTheorems.CommandsComeFromToolsCall` | src/dbgx-mcp.cpp:201-220 | the router runs a command only on a body in which the logger reads the method `tools/call` |
| `ExtensionTheorems.StoryShape` | src/dbgx-mcp.cpp:152-222 | a request to `/mcp` logs its reception first and its answer last, each once, all under its own trace id; any other request logs nothing |
| `ExtensionTheorems.EveryCommandIsBracketed` | src/dbgx-mcp.cpp:200-220 | in the log of any run every command lies between the start and end stages of one trace id |
| `ExtensionTheorems.LocalTraceIdsAreUnique` | src/dbgx-mcp.cpp:90-116 | in a run of at most 2^64 requests a local trace id is given once and never equals a request's own |
| `ExtensionTheorems.StagesOfOneRequest` | src/dbgx-mcp.cpp:90-116 | in the log of such a run all stages with the trace id of a local request belong to that one request |
| `ExtensionTheorems.SentLineTellsTheTruth` | src/dbgx-mcp.cpp:140-155 | the line logged for an answer shows at its place `success` exactly when dispatch and command succeeded, and `error` otherwise |
| `Service.ServeClient` | src/mcp/http_server.cpp:509-522 | one connection: the request its chunks amount to is handled, or 400 is answered, and what is sent is a beginning of the response, and all of it if every send took something |
| `Service.ServeAll` | src/mcp/http_server.cpp:489-526 | the log of a worker's run is the journal of the requests that arrived, the commands run are theirs in order, and each client is sent the response its request gets after those before it |
| `Service.CommandEndToEnd` | src/mcp/http_server.cpp:509-522 | a request whose syntax tree asks for a command, in any spelling, any chunks and with any headers the extension lets through, makes the executor run exactly that command with its options, once; the response has a body exactly if the request has an id, and its text reads back as its status, headers and a body, which reads back as that id and the text and flag that command's execution calls for |
| `Service.EscapedCommandEndToEnd` | src/mcp/http_server.cpp:509-522 | in particular a command printed by `Escape` arrives byte for byte |
| `Service.ReplyReadsBack` | src/mcp/http_server.cpp:509-522 | whatever a client is answered, the text sent reads back as that response |
| `Service.BadRequestReads` | src/mcp/http_server.cpp:512-517 | a connection that delivers no request is answered status 400 and an object with the text of what failed and nothing else |
| `Lifecycle.NextKeepsInv` | src/dbgx-mcp.cpp:224-288 | every step of a host or a worker keeps the account of sockets, start-ups, threads and the mutex |
| `Lifecycle.SafeInEveryRun` | src/dbgx-mcp.cpp:205-235 | in every interleaving uses of the router never overlap and never come without one, and no socket or start-up is given back twice or lost |
| `Lifecycle.CleanupLeavesNothing` | src/mcp/http_server.cpp:531-559 | whenever clean-up returns the worker is joined, every socket is closed, start-ups are balanced and router, executor and server are gone |
| `Lifecycle.InitializeRunsOrLeavesNothing` | src/dbgx-mcp.cpp:239-288 | whenever initialization returns a server is running, or it failed and nothing is left |
| `Lifecycle.NeverReplaced` | src/dbgx-mcp.cpp:250-256 | the running check keeps initialization from replacing a server that was started |
| `Lifecycle.StuckExactlyWhenWaiting` | src/dbgx-mcp.cpp:224-231 | nothing can move exactly when clean-up joins a worker that waits for the mutex |
| `Lifecycle.StandstillIsReachable` | src/dbgx-mcp.cpp:205-231 | and that state is reached by a run |
| `LifecycleRefinement.StopIsItsSteps` | src/mcp/http_server.cpp:531-559 | stopping the server object leaves server, sockets and start-ups as the steps of the lifecycle leave them |
| `LifecycleRefinement.StartIsAStep` | src/mcp/http_server.cpp:326-529 | starting the object has the effect of the one step that stands for it, or of the failed start and the stop behind it |
| `Decimals.DecimalRoundTrip` | src/mcp/http_server.cpp:282 | a printed number reads back as itself |
| `Decimals.NumeralText` | src/mcp/json_rpc.cpp:39 | a printed number, negative or not, is digits worth it behind a minus sign where it is negative |

## Left out

- Winsock, DbgEng and COM calls, `FormatMessage`, environment variables and the clock: their results are arbitrary parameters, and the durations shown in log lines are an arbitrary function.
- OutputCapture.Execute: the engine's steps and their error messages are a parameter; the previous output callbacks are not put back. The router's executor is arbitrary and need not be this one.
- Exceptions, allocation failure, the depth of the C++ stack, and reference counting of the output callbacks.
- Data races on `listen_socket`: a worker's `select` and `accept` see one consistent value per step.
- `std::stoi` is the value of an optional sign and digits within 32 bits; `std::sort` is an insertion sort.
- `IsNull`, the overloads without a trace context and null output pointers, which no caller in the repository passes.
- The prefix and the line feed `LogMessage` adds around a line, and the log messages of initialization itself.
- JsonScanner.ParseObjectFields: the part of the loop up to the comma or brace is a method of its own (`ParseField`), as is that of the nested skipper (`SkipField`).
- JsonScanner.SkipJsonObject: which of its errors a malformed object or array meets is stated by the reader functions alone; strings, a missing object and trailing content have statements of their own.
- HttpFraming.ScanContentLength: the inner loop of `ReceiveRequest` is a method of its own.
- JsonRpcTheorems.ResponseWellFormed: the version macro is a parameter printed as a JSON string; where it needs no escaping, as now, that is the literal in the code.
- HttpStart.HttpServer.Start: error texts are values of a datatype; the port the library picks for port 0 is arbitrary.
- HttpRoundTrip.RequestRoundTrip: a verb or path with a space, or a request line that reads as a length field, is not read back as written; `HttpRoundTrip.FirstLineSound` says what any request line is read as.
- HttpStart.HttpServer.Stop: joining the worker is a flag here; the thread itself is in `Lifecycle.dfy`, and `LifecycleRefinement.dfy` compares the two once the worker is done.
- Lifecycle.SafeInEveryRun: a start is one step, with the effect `LifecycleRefinement.StartIsAStep` relates to the code; bytes on connections do not appear in it.
- Liveness of clean-up, which the standstill above rules out.
- The Python bridge, the build and deployment scripts, the resource template and the documents.

/** How the server reads a request off a connection and writes the answer back. */
module HttpFraming {
  import opened Bytes
  import opened Decimals
  import opened Http

  const MAX_HEADER_BYTES: nat := 64 * 1024
  const MAX_BODY_BYTES: nat := 2 * 1024 * 1024
  const MAX_REQUEST_BYTES: nat := MAX_HEADER_BYTES + MAX_BODY_BYTES + 4

  datatype HttpError =
    | MalformedRequestLine
    | InvalidRequestLine
    | MalformedHeader
    | TooLarge
    | InvalidContentLength
    | Closed
  {
    function Text(): string {
      match this
      case MalformedRequestLine => "Malformed request line"
      case InvalidRequestLine => "Invalid request line"
      case MalformedHeader => "Malformed header"
      case TooLarge => "Request is too large"
      case InvalidContentLength => "Invalid Content-Length"
      case Closed => "Connection closed before full request was received"
    }
  }

  // ------------------------------------------------------- Content-Length

  /** The narrowest `size_t` the code can meet: its arithmetic must fit. */
  newtype Size = x: int | 0 <= x < 0x1_0000_0000

  /** A length field's value: digits between blanks, worth at most the body limit. */
  function LengthOf(value: string): Option<nat> {
    var digits := Trim(value);
    if digits != "" && AllDigits(digits) && DecimalValue(digits) <= MAX_BODY_BYTES then Some(DecimalValue(digits))
      else None
  }

  method ParseContentLength(value: string) returns (r: Option<nat>)
    ensures r == LengthOf(value)
  {
    hide Trim;
    var trimmed := Trim(value);
    if trimmed == "" {
      return None;
    }
    var result: Size := 0;
    for i := 0 to |trimmed|
      invariant AllDigits(trimmed[..i]) && result as int == DecimalValue(trimmed[..i]) <= MAX_BODY_BYTES
    {
      var ch := trimmed[i];
      if ch < '0' || ch > '9' {
        return None;
      }
      var digit: Size := (ch as int - '0' as int) as Size;
      assert trimmed[..i + 1][..i] == trimmed[..i];
      assert AllDigits(trimmed) ==> DecimalValue(trimmed[..i + 1]) <= DecimalValue(trimmed) by {
        if AllDigits(trimmed) {
          DecimalPrefix(trimmed, i + 1);
        }
      }
      if result > (MAX_BODY_BYTES / 10) as Size {
        return None;
      }
      result := result * 10 + digit;
      if result > MAX_BODY_BYTES as Size {
        return None;
      }
    }
    assert trimmed[..|trimmed|] == trimmed;
    r := Some(result as nat);
  }

  // --------------------------------------------------------------- headers

  function FieldName(line: string, colon: nat): string
    requires colon <= |line|
  {
    ToLower(Trim(line[..colon]))
  }

  /** What a line says about the body length: nothing, a length, or something unusable. */
  datatype LengthField = NoLength | BadLength | Length(n: nat)

  function LengthIn(line: string): (r: LengthField)
    ensures r.Length? ==> r.n <= MAX_BODY_BYTES
  {
    var colon := Find(line, ":", 0);
    if colon.None? || FieldName(line, colon.value) != "content-length" then NoLength
    else match LengthOf(line[colon.value + 1..]) case None => BadLength case Some(n) => Length(n)
  }

  /** The length a block of lines announces: the last one, unless one of them is unusable. */
  function BodyLength(lines: seq<string>, sofar: nat): Option<nat> {
    if lines == [] then Some(sofar)
    else
      match LengthIn(lines[0])
      case NoLength => BodyLength(lines[1..], sofar)
      case BadLength => None
      case Length(n) => BodyLength(lines[1..], n)
  }

  lemma BodyLengthStep(line: string, rest: seq<string>, sofar: nat)
    ensures BodyLength([line] + rest, sofar) ==
            match LengthIn(line)
            case NoLength => BodyLength(rest, sofar)
            case BadLength => None
            case Length(n) => BodyLength(rest, n)
    ensures BodyLength([line], sofar) ==
            match LengthIn(line)
            case NoLength => Some(sofar)
            case BadLength => None
            case Length(n) => Some(n)
  {
    hide LengthIn;
    assert ([line] + rest)[1..] == rest && [line][1..] == [];
  }

  method ScanContentLength(header: string) returns (r: Option<nat>)
    ensures r == BodyLength(Split(header), 0)
  {
    hide Find, Has, LengthOf, ToLower, Trim, Split, BodyLength;
    var contentLength: nat := 0;
    var lineStart := 0;
    assert header[0..] == header;
    while lineStart < |header|
      invariant 0 <= lineStart <= |header|
      invariant BodyLength(Split(header), 0) == BodyLength(Split(header[lineStart..]), contentLength)
    {
      NextLine(header, lineStart);
      var lineEnd := Find(header, CR_LF, lineStart);
      var thisEnd := if lineEnd.None? then |header| else lineEnd.value;
      var line := header[lineStart..thisEnd];
      assert lineEnd.None? ==> line == header[lineStart..];
      BodyLengthStep(line, if lineEnd.Some? then Split(header[lineEnd.value + 2..]) else [], contentLength);
      var colon := Find(line, ":", 0);
      if colon.Some? {
        var key := ToLower(Trim(line[..colon.value]));
        if key == "content-length" {
          var length := ParseContentLength(line[colon.value + 1..]);
          if length.None? {
            return None;
          }
          contentLength := length.value;
        }
      }
      if lineEnd.None? {
        return Some(contentLength);
      }
      lineStart := lineEnd.value + 2;
    }
    NoLines();
    BodyLengthStep("", [], contentLength);
    assert header[lineStart..] == "";
    r := Some(contentLength);
  }

  lemma NoLines()
    ensures Split("") == [""] && LengthIn("") == NoLength
  {
    FindByte("", ':');
  }

  /** Searching on in a text splits off the first line of the rest. */
  lemma NextLine(t: string, from: nat)
    requires from <= |t|
    ensures var r := Find(t, CR_LF, from);
            if r.None? then Split(t[from..]) == [t[from..]]
            else from <= r.value && r.value + 2 <= |t| &&
                 Split(t[from..]) == [t[from..r.value]] + Split(t[r.value + 2..])
  {
    hide Has, Find;
    var rest := t[from..];
    assert t == t[..from] + rest;
    FindShift(t[..from], rest, CR_LF, 0);
    var i := Find(rest, CR_LF, 0);
    if i.Some? {
      HasCrLf(rest, i.value);
      assert rest[..i.value] == t[from..from + i.value];
      assert rest[i.value + 2..] == t[from + i.value + 2..];
    }
  }

  // --------------------------------------------------------------- request

  datatype RequestLine = RequestLine(verb: string, path: string)

  function ParseRequestLine(line: string): Option<RequestLine> {
    match Find(line, " ", 0)
    case None => None
    case Some(methodEnd) =>
      match Find(line, " ", methodEnd + 1)
      case None => None
      case Some(pathEnd) => Some(RequestLine(line[..methodEnd], line[methodEnd + 1..pathEnd]))
  }

  /** The header map a list of lines amounts to, the last of equal names winning. */
  function HeadersIn(lines: seq<string>, sofar: map<string, string>): Option<map<string, string>> {
    if lines == [] then Some(sofar)
    else if lines[0] == "" then HeadersIn(lines[1..], sofar)
    else
      match Find(lines[0], ":", 0)
      case None => None
      case Some(colon) => HeadersIn(lines[1..], sofar[FieldName(lines[0], colon) := Trim(lines[0][colon + 1..])])
  }

  lemma HeadersStep(line: string, rest: seq<string>, sofar: map<string, string>)
    requires rest != []
    ensures HeadersIn(AllButLast([line] + rest), sofar) ==
            if line == "" then HeadersIn(AllButLast(rest), sofar)
            else if Find(line, ":", 0).None? then None
            else
              var colon := Find(line, ":", 0).value;
              HeadersIn(AllButLast(rest), sofar[FieldName(line, colon) := Trim(line[colon + 1..])])
  {
    hide Find, FieldName, Trim;
    assert AllButLast([line] + rest)[1..] == AllButLast(rest);
  }

  /** The request some header lines and a body amount to. The last line plays no part. */
  function RequestOf(lines: seq<string>, body: string): Result<HttpRequest, HttpError> {
    if |lines| < 2 then Failure(MalformedRequestLine)
    else
      match ParseRequestLine(lines[0])
      case None => Failure(InvalidRequestLine)
      case Some(first) =>
        match HeadersIn(lines[1..|lines| - 1], map[])
        case None => Failure(MalformedHeader)
        case Some(headers) => Success(HttpRequest(first.verb, first.path, headers, body))
  }

  method ParseHttpRequest(raw: string, headerEnd: nat, bodyLength: nat) returns (r: Result<HttpRequest, HttpError>)
    requires headerEnd + 4 + bodyLength <= |raw|
    ensures r == RequestOf(Split(raw[..headerEnd]), raw[headerEnd + 4..][..bodyLength])
  {
    hide Find, Has, ToLower, Trim, Split, ParseRequestLine, HeadersIn;
    var headerBlock := raw[..headerEnd];
    ghost var lines := Split(headerBlock);
    assert headerBlock[0..] == headerBlock;
    NextLine(headerBlock, 0);
    var lineEnd := Find(headerBlock, CR_LF, 0);
    if lineEnd.None? {
      return Failure(MalformedRequestLine);
    }
    var first := ParseRequestLine(headerBlock[..lineEnd.value]);
    if first.None? {
      return Failure(InvalidRequestLine);
    }
    var headers: map<string, string> := map[];
    var lineStart := lineEnd.value + 2;
    assert lines[1..|lines| - 1] == AllButLast(Split(headerBlock[lineStart..]));
    while lineStart < |headerBlock|
      invariant 0 <= lineStart <= |headerBlock|
      invariant HeadersIn(lines[1..|lines| - 1], map[]) ==
                HeadersIn(AllButLast(Split(headerBlock[lineStart..])), headers)
    {
      NextLine(headerBlock, lineStart);
      lineEnd := Find(headerBlock, CR_LF, lineStart);
      if lineEnd.None? {
        break;
      }
      HeadersStep(headerBlock[lineStart..lineEnd.value], Split(headerBlock[lineEnd.value + 2..]), headers);
      if lineEnd.value == lineStart {
        lineStart := lineEnd.value + 2;
        continue;
      }
      var line := headerBlock[lineStart..lineEnd.value];
      var colon := Find(line, ":", 0);
      if colon.None? {
        return Failure(MalformedHeader);
      }
      var key := ToLower(Trim(line[..colon.value]));
      var value := Trim(line[colon.value + 1..]);
      headers := headers[key := value];
      lineStart := lineEnd.value + 2;
    }
    NoLines();
    NoHeaders(headers);
    assert AllButLast(Split(headerBlock[lineStart..])) == [] by {
      assert headerBlock[|headerBlock|..] == "";
    }
    r := Success(HttpRequest(first.value.verb, first.value.path, headers, raw[headerEnd + 4..][..bodyLength]));
  }

  function AllButLast(lines: seq<string>): seq<string>
    requires lines != []
  {
    lines[..|lines| - 1]
  }

  lemma NoHeaders(sofar: map<string, string>)
    ensures HeadersIn([], sofar) == Some(sofar)
  {
  }

  // --------------------------------------------------------------- receive

  /** What the text received so far amounts to. */
  datatype Progress = Waiting | Settled(result: Result<HttpRequest, HttpError>)

  function Inspect(s: string): Progress {
    match Find(s, BLANK_LINE, 0)
    case None => Waiting
    case Some(headerEnd) =>
      match BodyLength(Split(s[..headerEnd]), 0)
      case None => Settled(Failure(InvalidContentLength))
      case Some(n) =>
        if |s| < headerEnd + 4 + n then Waiting
        else Settled(RequestOf(Split(s[..headerEnd]), s[headerEnd + 4..][..n]))
  }

  /** Receiving, chunk by chunk: what comes of the chunks still to arrive. */
  function Receive(received: string, chunks: seq<string>): Result<HttpRequest, HttpError>
    decreases |chunks|
  {
    if chunks == [] || chunks[0] == "" then Failure(Closed)
    else
      var grown := received + chunks[0];
      if |grown| > MAX_REQUEST_BYTES then Failure(TooLarge)
      else match Inspect(grown) case Settled(r) => r case Waiting => Receive(grown, chunks[1..])
  }

  /** A connected socket: what the coming `recv` calls will deliver, and what was sent.
      An empty chunk stands for an error or the end of the stream. */
  class Connection {
    var incoming: seq<string>
    var sent: string
    /** How many of the offered bytes the next `send` takes, given what was sent before. */
    const takes: (string, string) -> int

    constructor (incoming: seq<string>, takes: (string, string) -> int)
      ensures this.incoming == incoming && sent == "" && this.takes == takes
    {
      this.incoming := incoming;
      sent := "";
      this.takes := takes;
    }

    /** Every send takes something of what it is offered. */
    ghost predicate AlwaysTakes() {
      forall before: string, offered: string :: offered != "" ==> takes(before, offered) > 0
    }

    method Recv() returns (bytes: string)
      modifies this`incoming
      ensures bytes == if old(incoming) == [] then "" else old(incoming)[0]
      ensures incoming == if old(incoming) == [] then [] else old(incoming)[1..]
    {
      if incoming == [] {
        return "";
      }
      bytes := incoming[0];
      incoming := incoming[1..];
    }

    /** A call that takes nothing has failed. No call takes more than it is offered. */
    method Send(bytes: string, length: int) returns (n: int)
      requires length <= |bytes|
      modifies this`sent
      ensures n <= length
      ensures sent == old(sent) + if n > 0 then bytes[..n] else ""
      ensures AlwaysTakes() && length > 0 ==> n > 0
    {
      n := takes(sent, bytes);
      if n > length {
        n := length;
      }
      if n > 0 {
        sent := sent + bytes[..n];
      }
    }
  }

  method ReceiveRequest(socket: Connection) returns (r: Result<HttpRequest, HttpError>)
    modifies socket`incoming
    ensures r == Receive("", old(socket.incoming))
  {
    hide Find, Has, Split, BodyLength, RequestOf, Inspect;
    var received := "";
    var headerEnd: Option<nat> := None;
    var contentLength: nat := 0;
    InspectText("");
    while true
      invariant Receive("", old(socket.incoming)) == Receive(received, socket.incoming)
      invariant headerEnd == Find(received, BLANK_LINE, 0)
      invariant headerEnd.Some? ==> BodyLength(Split(received[..headerEnd.value]), 0) == Some(contentLength)
      invariant headerEnd.None? ==> contentLength == 0
      decreases |socket.incoming|
    {
      var bytes := socket.Recv();
      if bytes == "" {
        return Failure(Closed);
      }
      ghost var before := received;
      received := received + bytes;
      if |received| > MAX_REQUEST_BYTES {
        return Failure(TooLarge);
      }
      InspectText(received);
      if headerEnd.None? {
        headerEnd := Find(received, BLANK_LINE, 0);
        if headerEnd.Some? {
          var length := ScanContentLength(received[..headerEnd.value]);
          if length.None? {
            return Failure(InvalidContentLength);
          }
          contentLength := length.value;
        }
      } else {
        FindAppend(before, BLANK_LINE, bytes);
        assert received[..headerEnd.value] == before[..headerEnd.value];
      }
      if headerEnd.Some? {
        var needed := headerEnd.value + 4 + contentLength;
        if |received| >= needed {
          r := ParseHttpRequest(received, headerEnd.value, contentLength);
          return;
        }
      }
    }
  }

  /** `Inspect`, spelled out for one text. */
  lemma InspectText(s: string)
    ensures var e := Find(s, BLANK_LINE, 0);
            Inspect(s) ==
            if e.None? then Waiting
            else if BodyLength(Split(s[..e.value]), 0).None? then Settled(Failure(InvalidContentLength))
            else if |s| < e.value + 4 + BodyLength(Split(s[..e.value]), 0).value then Waiting
            else Settled(RequestOf(Split(s[..e.value]), s[e.value + 4..][..BodyLength(Split(s[..e.value]), 0).value]))
    ensures s == "" ==> Find(s, BLANK_LINE, 0).None?
  {
    hide BodyLength, RequestOf, Split;
  }

  // ------------------------------------------------------------------ send

  /** `static_cast<int>` of a size. */
  function ToInt32(n: nat): (r: int)
    ensures n < 0x8000_0000 ==> r == n
    ensures r <= n
  {
    var m := n % 0x1_0000_0000;
    if m < 0x8000_0000 then m else m - 0x1_0000_0000
  }

  /** Sending in pieces delivers a prefix of the text, and reports success for the whole of it only.
      It does deliver the whole if no call fails and the length fits the type the calls take it in. */
  method SendAll(socket: Connection, text: string) returns (ok: bool)
    modifies socket`sent
    ensures old(socket.sent) <= socket.sent <= old(socket.sent) + text
    ensures ok <==> socket.sent == old(socket.sent) + text
    ensures socket.AlwaysTakes() && |text| < 0x8000_0000 ==> ok
  {
    var sentTotal := 0;
    while sentTotal < |text|
      invariant 0 <= sentTotal <= |text|
      invariant socket.sent == old(socket.sent) + text[..sentTotal]
    {
      var n := socket.Send(text[sentTotal..], ToInt32(|text| - sentTotal));
      if n <= 0 {
        assert |socket.sent| < |old(socket.sent) + text|;
        return false;
      }
      TakeMore(text, sentTotal, n);
      sentTotal := sentTotal + n;
    }
    ok := true;
  }

  lemma TakeMore(text: string, k: nat, n: nat)
    requires k + n <= |text|
    ensures text[..k] + text[k..][..n] == text[..k + n]
  {
  }

  // -------------------------------------------------------------- response

  function StatusText(status: int): string {
    match status
    case 200 => "OK"
    case 202 => "Accepted"
    case 400 => "Bad Request"
    case 403 => "Forbidden"
    case 404 => "Not Found"
    case 405 => "Method Not Allowed"
    case 500 => "Internal Server Error"
    case _ => "Error"
  }

  function ResponseLines(r: HttpResponse): seq<string> {
    ["HTTP/1.1 " + (DecimalText(r.status) + (" " + StatusText(r.status))), "Connection: close"] +
    (if r.hasBody
     then ["Content-Type: " + (if r.contentType == "" then JSON_CONTENT_TYPE else r.contentType),
       "Content-Length: " + DecimalText(|r.body|)]
     else ["Content-Length: 0"])
  }

  function ShownBody(r: HttpResponse): string {
    if r.hasBody then r.body else ""
  }

  /** The whole text of a response. */
  ghost function WireText(r: HttpResponse): string {
    Block(ResponseLines(r)) + (BLANK_LINE + ShownBody(r))
  }

  method BuildHttpResponseText(r: HttpResponse) returns (output: string)
    ensures output == WireText(r)
  {
    hide DecimalText, StatusText;
    ghost var lines := ResponseLines(r);
    output := "HTTP/1.1 " + (DecimalText(r.status) + (" " + StatusText(r.status))) + "\r\n";
    output := output + "Connection: close" + "\r\n";
    if r.hasBody {
      output := output + ("Content-Type: " + (if r.contentType == "" then JSON_CONTENT_TYPE else r.contentType)) +
        "\r\n";
      output := output + ("Content-Length: " + DecimalText(|r.body|)) + "\r\n";
      output := output + "\r\n";
      output := output + r.body;
      BlockOfFour(lines[0], lines[1], lines[2], lines[3], r.body);
    } else {
      output := output + "Content-Length: 0" + "\r\n\r\n";
      BlockOfThree(lines[0], lines[1], lines[2]);
    }
    assert output == Block(lines) + (BLANK_LINE + ShownBody(r));
  }

  lemma BlockOfThree(a: string, b: string, c: string)
    ensures Block([a, b, c]) + (BLANK_LINE + "") == a + CR_LF + b + CR_LF + c + BLANK_LINE
  {
    BlockCons(a, [b, c]);
    BlockCons(b, [c]);
  }

  lemma BlockOfFour(a: string, b: string, c: string, d: string, body: string)
    ensures Block([a, b, c, d]) + (BLANK_LINE + body) == a + CR_LF + b + CR_LF + c + CR_LF + d + CR_LF + CR_LF + body
  {
    BlockCons(a, [b, c, d]);
    BlockCons(b, [c, d]);
    BlockCons(c, [d]);
    assert BLANK_LINE == CR_LF + CR_LF;
  }

  lemma BlockCons(line: string, rest: seq<string>)
    requires rest != []
    ensures Block([line] + rest) == line + (CR_LF + Block(rest))
  {
    assert ([line] + rest)[1..] == rest;
  }
}

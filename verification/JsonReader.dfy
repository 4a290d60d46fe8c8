/** The recursive reader that the scanning loops compute, as a function from text and position
    to a syntax tree and an end position, or to the error message of the code. */
module JsonReader {
  import opened Bytes
  import opened JsonGrammar

  /** Why a text is rejected; `Message` is what the code reports. */
  datatype ScanError =
    | UnterminatedString
    | ControlCharacter
    | UnterminatedEscape
    | InvalidUnicodeEscape
    | UnsupportedEscape
    | ExpectedString
    | ExpectedValue
    | UnterminatedArray
    | ExpectedCommaOrBracket
    | UnterminatedObject
    | ExpectedTopColon
    | ExpectedColon
    | ExpectedTopCommaOrBrace
    | ExpectedCommaOrBrace
    | NotAnObject
    | TrailingContent
    | ExpectedArray
    | ExpectedObject

  function Message(e: ScanError): string {
    match e
    case UnterminatedString => "Unterminated JSON string"
    case ControlCharacter => "Control character is not allowed in JSON string"
    case UnterminatedEscape => "Unterminated escape sequence"
    case InvalidUnicodeEscape => "Invalid unicode escape"
    case UnsupportedEscape => "Unsupported escape sequence"
    case ExpectedString => "Expected JSON string"
    case ExpectedValue => "Expected JSON value"
    case UnterminatedArray => "Unterminated array"
    case ExpectedCommaOrBracket => "Expected ',' or ']' in array"
    case UnterminatedObject => "Unterminated object"
    case ExpectedTopColon => "Expected ':' after key"
    case ExpectedColon => "Expected ':' after object key"
    case ExpectedTopCommaOrBrace => "Expected ',' or '}'"
    case ExpectedCommaOrBrace => "Expected ',' or '}' in object"
    case NotAnObject => "Top-level JSON value must be an object"
    case TrailingContent => "Unexpected trailing content"
    case ExpectedArray => "Expected array"
    case ExpectedObject => "Expected object"
  }

  datatype Scan<+T> = Ok(value: T, end: nat) | Err(error: ScanError)

  /** The pieces of a string token whose opening quote stands just before `p`. */
  function ReadPieces(t: string, p: nat): (r: Scan<seq<Piece>>)
    requires p <= |t|
    ensures r.Ok? ==> p < r.end <= |t| && WFPieces(r.value)
    decreases |t| - p
  {
    if p == |t| then Err(UnterminatedString)
    else if t[p] == '"' then Ok([], p + 1)
    else if t[p] == '\\' then
      match ReadEscape(t, p + 1)
      case Err(m) => Err(m)
      case Ok(piece, q) => Prepend(piece, ReadPieces(t, q))
    else if t[p] as int < 0x20 then Err(ControlCharacter)
    else Prepend(Plain(t[p]), ReadPieces(t, p + 1))
  }

  function Prepend<T>(x: T, r: Scan<seq<T>>): Scan<seq<T>> {
    match r
    case Ok(xs, end) => Ok([x] + xs, end)
    case Err(m) => Err(m)
  }

  /** The escape whose backslash stands just before `p`. */
  function ReadEscape(t: string, p: nat): (r: Scan<Piece>)
    requires p <= |t|
    ensures r.Ok? ==> p < r.end <= |t| && WFPiece(r.value) && !r.value.Plain?
  {
    if p == |t| then Err(UnterminatedEscape)
    else if IsShort(t[p]) then Ok(Short(t[p]), p + 1)
    else if t[p] == 'u' then
      if p + 5 <= |t| && IsHexDigit(t[p + 1]) && IsHexDigit(t[p + 2]) && IsHexDigit(t[p + 3]) && IsHexDigit(t[p + 4])
      then Ok(Hex(t[p + 1], t[p + 2], t[p + 3], t[p + 4]), p + 5)
      else Err(InvalidUnicodeEscape)
    else Err(UnsupportedEscape)
  }

  /** The string token at `p`. */
  function ReadString(t: string, p: nat): (r: Scan<seq<Piece>>)
    requires p <= |t|
    ensures r.Ok? ==> p < r.end <= |t| && WFPieces(r.value)
  {
    if p == |t| || t[p] != '"' then Err(ExpectedString) else ReadPieces(t, p + 1)
  }

  function RunEnd(t: string, p: nat): (r: nat)
    requires p <= |t|
    ensures p <= r <= |t|
    ensures forall i :: p <= i < r ==> !IsStop(t[i])
    ensures r < |t| ==> IsStop(t[r])
    decreases |t| - p
  {
    if p == |t| || IsStop(t[p]) then p else RunEnd(t, p + 1)
  }

  /** The value that starts at `p`, white space before it already skipped. */
  function ReadValue(t: string, p: nat): (r: Scan<Value>)
    requires p <= |t|
    ensures r.Ok? ==> p < r.end <= |t|
    decreases |t| - p, 1
  {
    if p == |t| then Err(ExpectedValue)
    else if t[p] == '{' then ReadObject(t, p, false)
    else if t[p] == '[' then ReadArray(t, p)
    else if t[p] == '"' then
      match ReadString(t, p)
      case Ok(pieces, end) => Ok(Str(pieces), end)
      case Err(m) => Err(m)
    else if RunEnd(t, p) == p then Err(ExpectedValue)
    else Ok(Scalar(t[p..RunEnd(t, p)]), RunEnd(t, p))
  }

  function ReadArray(t: string, p: nat): (r: Scan<Value>)
    requires p < |t| && t[p] == '['
    ensures r.Ok? ==> p < r.end <= |t|
    decreases |t| - p, 0
  {
    var b := SkipWs(t, p + 1);
    if b < |t| && t[b] == ']' then Ok(Arr(t[p + 1..b], []), b + 1)
    else
      match ReadElements(t, b)
      case Ok(elements, end) => Ok(Arr(t[p + 1..b], elements), end)
      case Err(m) => Err(m)
  }

  /** The rest of an array from an element on, its closing bracket included. */
  function ReadElements(t: string, p: nat): (r: Scan<seq<Element>>)
    requires p <= |t|
    ensures r.Ok? ==> p < r.end <= |t| && r.value != []
    decreases |t| - p, 2
  {
    if p == |t| then Err(UnterminatedArray)
    else
      match ReadValue(t, p)
      case Err(m) => Err(m)
      case Ok(v, q) =>
        var a := SkipWs(t, q);
        if a == |t| then Err(UnterminatedArray)
        else if t[a] == ',' then
          var n := SkipWs(t, a + 1);
          Prepend(Element(v, t[q..a], t[a + 1..n]), ReadElements(t, n))
        else if t[a] == ']' then Ok([Element(v, t[q..a], "")], a + 1)
        else Err(ExpectedCommaOrBracket)
  }

  /** The object at `p`; `top` selects the messages of the top-level extractor. */
  function ReadObject(t: string, p: nat, top: bool): (r: Scan<Value>)
    requires p < |t| && t[p] == '{'
    ensures r.Ok? ==> p < r.end <= |t| && r.value.Obj?
    decreases |t| - p, 0
  {
    var b := SkipWs(t, p + 1);
    if b < |t| && t[b] == '}' then Ok(Obj(t[p + 1..b], []), b + 1)
    else
      match ReadMembers(t, b, top)
      case Ok(members, end) => Ok(Obj(t[p + 1..b], members), end)
      case Err(m) => Err(m)
  }

  /** The rest of an object from a key on, its closing brace included. */
  function ReadMembers(t: string, p: nat, top: bool): (r: Scan<seq<Member>>)
    requires p <= |t|
    ensures r.Ok? ==> p < r.end <= |t| && r.value != []
    decreases |t| - p, 3
  {
    if p == |t| then Err(UnterminatedObject)
    else
      match ReadField(t, p, top)
      case Err(m) => Err(m)
      case Ok(m, a) =>
        if a == |t| then Err(UnterminatedObject)
        else if t[a] == ',' then
          var n := SkipWs(t, a + 1);
          Prepend(m.(gap := t[a + 1..n]), ReadMembers(t, n, top))
        else if t[a] == '}' then Ok([m], a + 1)
        else Err(if top then ExpectedTopCommaOrBrace else ExpectedCommaOrBrace)
  }

  /** A key, its colon and its value, up to the first non-blank after it. */
  function ReadField(t: string, p: nat, top: bool): (r: Scan<Member>)
    requires p <= |t|
    ensures r.Ok? ==> p < r.end <= |t| && r.value.gap == "" && WFPieces(r.value.key)
    decreases |t| - p, 2
  {
    match ReadString(t, p)
    case Err(m) => Err(m)
    case Ok(key, k) =>
      var c := SkipWs(t, k);
      if c == |t| || t[c] != ':' then Err(if top then ExpectedTopColon else ExpectedColon)
      else
        var s := SkipWs(t, c + 1);
        match ReadValue(t, s)
        case Err(m) => Err(m)
        case Ok(v, q) =>
          var a := SkipWs(t, q);
          Ok(Member(key, t[k..c], t[c + 1..s], v, t[q..a], ""), a)
  }

  // ------------------------------------------------ text as a row of parts

  lemma PiecesCons(p: Piece, ps: seq<Piece>)
    ensures RenderPieces([p] + ps) == RenderPiece(p) + RenderPieces(ps)
    ensures WFPieces([p] + ps) <==> WFPiece(p) && WFPieces(ps)
  {
    assert ([p] + ps)[1..] == ps;
    if WFPieces([p] + ps) {
      assert forall i :: 0 <= i < |ps| ==> ps[i] == ([p] + ps)[i + 1];
      assert WFPiece(([p] + ps)[0]);
    }
  }

  lemma WFElementsCons(e: Element, es: seq<Element>)
    requires WF(e.value) && Blank(e.after) && Blank(e.gap) && WFElements(es) && (es == [] ==> e.gap == "")
    ensures WFElements([e] + es)
  {
    assert ([e] + es)[1..] == es;
  }

  lemma WFMembersCons(m: Member, ms: seq<Member>)
    requires WFField(m) && Blank(m.gap) && WFMembers(ms) && (ms == [] ==> m.gap == "")
    ensures WFMembers([m] + ms)
  {
    assert ([m] + ms)[1..] == ms;
  }

  /** What follows the blanks after an element: the closing bracket, or a comma and the rest. */
  function ElementsTail(e: Element, es: seq<Element>): string {
    if es == [] then "]" else "," + (e.gap + RenderElements(es))
  }

  function MembersTail(m: Member, ms: seq<Member>): string {
    if ms == [] then "}" else "," + (m.gap + RenderMembers(ms))
  }

  /** An element list stands at `p` exactly when its parts stand one after the other. */
  lemma ElementsParts(t: string, p: nat, e: Element, es: seq<Element>)
    ensures var q := p + |Render(e.value)|; var a := q + |e.after|;
            (Has(t, p, RenderElements([e] + es)) <==>
              Has(t, p, Render(e.value)) && Has(t, q, e.after) && Has(t, a, ElementsTail(e, es)))
            && p + |RenderElements([e] + es)| == a + |ElementsTail(e, es)|
  {
    hide Has;
    assert ([e] + es)[1..] == es;
    var tail := ElementsTail(e, es);
    assert RenderElements([e] + es) == Render(e.value) + (e.after + tail);
    HasConcat(t, p + |Render(e.value)|, e.after, tail);
    HasConcat(t, p, Render(e.value), e.after + tail);
  }

  lemma MembersParts(t: string, p: nat, m: Member, ms: seq<Member>)
    ensures var a := p + |RenderField(m)|;
            (Has(t, p, RenderMembers([m] + ms)) <==> Has(t, p, RenderField(m)) && Has(t, a, MembersTail(m, ms)))
            && p + |RenderMembers([m] + ms)| == a + |MembersTail(m, ms)|
  {
    hide Has;
    assert ([m] + ms)[1..] == ms;
    HasConcat(t, p, RenderField(m), MembersTail(m, ms));
  }

  lemma FieldParts(t: string, p: nat, m: Member)
    ensures var k := p + |Quoted(m.key)|; var c := k + |m.mid|; var s := c + 1 + |m.lead|;
            var q := s + |Render(m.value)|;
            (Has(t, p, RenderField(m)) <==>
              Has(t, p, Quoted(m.key)) && Has(t, k, m.mid) && Has(t, c, ":") && Has(t, c + 1, m.lead) &&
              Has(t, s, Render(m.value)) && Has(t, q, m.after))
            && p + |RenderField(m)| == q + |m.after|
  {
    hide Has, Render, Quoted;
    var fromValue := Render(m.value) + m.after;
    var fromColon := ":" + (m.lead + fromValue);
    var k := p + |Quoted(m.key)|;
    var c := k + |m.mid|;
    HasConcat(t, c + 1 + |m.lead|, Render(m.value), m.after);
    HasConcat(t, c + 1, m.lead, fromValue);
    HasConcat(t, c, ":", m.lead + fromValue);
    HasConcat(t, k, m.mid, fromColon);
    HasConcat(t, p, Quoted(m.key), m.mid + fromColon);
  }

  lemma ElementsTailParts(t: string, a: nat, e: Element, es: seq<Element>)
    requires es != []
    ensures Has(t, a, ElementsTail(e, es)) <==>
            Has(t, a, ",") && Has(t, a + 1, e.gap) && Has(t, a + 1 + |e.gap|, RenderElements(es))
    ensures |ElementsTail(e, es)| == 1 + |e.gap| + |RenderElements(es)|
  {
    hide Has;
    HasConcat(t, a + 1, e.gap, RenderElements(es));
    HasConcat(t, a, ",", e.gap + RenderElements(es));
  }

  lemma MembersTailParts(t: string, a: nat, m: Member, ms: seq<Member>)
    requires ms != []
    ensures Has(t, a, MembersTail(m, ms)) <==>
            Has(t, a, ",") && Has(t, a + 1, m.gap) && Has(t, a + 1 + |m.gap|, RenderMembers(ms))
    ensures |MembersTail(m, ms)| == 1 + |m.gap| + |RenderMembers(ms)|
  {
    hide Has;
    HasConcat(t, a + 1, m.gap, RenderMembers(ms));
    HasConcat(t, a, ",", m.gap + RenderMembers(ms));
  }

  /** The bracketed values, part by part. */
  lemma ArrayParts(t: string, p: nat, blank: string, es: seq<Element>)
    ensures var tail := if es == [] then "]" else RenderElements(es);
            (Has(t, p, Render(Arr(blank, es))) <==>
              Has(t, p, "[") && Has(t, p + 1, blank) && Has(t, p + 1 + |blank|, tail))
            && |Render(Arr(blank, es))| == 1 + |blank| + |tail|
  {
    hide Has;
    var tail := if es == [] then "]" else RenderElements(es);
    HasConcat(t, p + 1, blank, tail);
    HasConcat(t, p, "[", blank + tail);
  }

  lemma ObjectParts(t: string, p: nat, blank: string, ms: seq<Member>)
    ensures var tail := if ms == [] then "}" else RenderMembers(ms);
            (Has(t, p, Render(Obj(blank, ms))) <==>
              Has(t, p, "{") && Has(t, p + 1, blank) && Has(t, p + 1 + |blank|, tail))
            && |Render(Obj(blank, ms))| == 1 + |blank| + |tail|
  {
    hide Has;
    var tail := if ms == [] then "}" else RenderMembers(ms);
    HasConcat(t, p + 1, blank, tail);
    HasConcat(t, p, "{", blank + tail);
  }

  lemma QuotedParts(t: string, p: nat, ps: seq<Piece>)
    ensures Has(t, p, Quoted(ps)) <==> Has(t, p, "\"") && Has(t, p + 1, RenderPieces(ps) + "\"")
    ensures |Quoted(ps)| == |RenderPieces(ps)| + 2
  {
    hide Has;
    HasConcat(t, p, "\"", RenderPieces(ps) + "\"");
  }

  lemma PiecesParts(t: string, p: nat, x: Piece, ps: seq<Piece>)
    ensures Has(t, p, RenderPieces([x] + ps) + "\"") <==>
            Has(t, p, RenderPiece(x)) && Has(t, p + |RenderPiece(x)|, RenderPieces(ps) + "\"")
    ensures |RenderPieces([x] + ps)| == |RenderPiece(x)| + |RenderPieces(ps)|
  {
    hide Has;
    PiecesCons(x, ps);
    HasConcat(t, p, RenderPiece(x), RenderPieces(ps) + "\"");
    assert RenderPieces([x] + ps) + "\"" == RenderPiece(x) + (RenderPieces(ps) + "\"");
  }

  // ------------------------------------------------------------ soundness

  lemma {:induction false} ReadPiecesSound(t: string, p: nat)
    requires p <= |t| && ReadPieces(t, p).Ok?
    ensures Has(t, p, RenderPieces(ReadPieces(t, p).value) + "\"")
    ensures ReadPieces(t, p).end == p + |RenderPieces(ReadPieces(t, p).value)| + 1
    decreases |t| - p
  {
    hide Has;
    if t[p] == '"' {
      HasByte(t, p, '"');
      assert RenderPieces([]) + "\"" == "\"";
    } else {
      var x := if t[p] == '\\' then ReadEscape(t, p + 1).value else Plain(t[p]);
      var q := if t[p] == '\\' then ReadEscape(t, p + 1).end else p + 1;
      ReadPiecesSound(t, q);
      PieceSound(t, p);
      PiecesParts(t, p, x, ReadPieces(t, q).value);
    }
  }

  lemma PieceSound(t: string, p: nat)
    requires p < |t|
    ensures t[p] == '\\' && ReadEscape(t, p + 1).Ok? ==>
            var r := ReadEscape(t, p + 1); Has(t, p, RenderPiece(r.value)) && r.end == p + |RenderPiece(r.value)|
    ensures t[p] != '\\' ==> Has(t, p, RenderPiece(Plain(t[p])))
  {
    HasByte(t, p, t[p]);
  }

  lemma ReadStringSound(t: string, p: nat)
    requires p <= |t| && ReadString(t, p).Ok?
    ensures Has(t, p, Quoted(ReadString(t, p).value))
    ensures ReadString(t, p).end == p + |Quoted(ReadString(t, p).value)|
  {
    hide Has;
    ReadPiecesSound(t, p + 1);
    HasByte(t, p, '"');
    QuotedParts(t, p, ReadString(t, p).value);
  }

  /** Good pieces stand from `p` on, and right behind them the text goes wrong as an error says. */
  ghost predicate FailsBehind(t: string, p: nat, ps: seq<Piece>, error: ScanError) {
    WFPieces(ps) && Has(t, p, RenderPieces(ps)) &&
    var q := p + |RenderPieces(ps)|;
    match error
    case UnterminatedString => q == |t|
    case ControlCharacter => q < |t| && t[q] as int < 0x20
    case UnterminatedEscape => q + 1 == |t| && t[q] == '\\'
    case UnsupportedEscape => q + 1 < |t| && t[q] == '\\' && t[q + 1] !in "\"\\/bfnrtu"
    case InvalidUnicodeEscape =>
      q + 1 < |t| && t[q] == '\\' && t[q + 1] == 'u' &&
      !(q + 5 < |t| && forall i :: q + 2 <= i < q + 6 ==> IsHexDigit(t[i]))
    case _ => false
  }

  lemma {:induction false} PiecesFail(t: string, p: nat) returns (ps: seq<Piece>)
    requires p <= |t| && ReadPieces(t, p).Err?
    ensures FailsBehind(t, p, ps, ReadPieces(t, p).error)
    decreases |t| - p
  {
    hide Has, FailsBehind;
    ps := [];
    if p < |t| && (if t[p] == '\\' then ReadEscape(t, p + 1).Ok? else t[p] as int >= 0x20) {
      var x := if t[p] == '\\' then ReadEscape(t, p + 1).value else Plain(t[p]);
      var rest := PiecesFail(t, if t[p] == '\\' then ReadEscape(t, p + 1).end else p + 1);
      PieceSound(t, p);
      FailsLater(t, p, x, rest, ReadPieces(t, p).error);
      ps := [x] + rest;
    } else {
      FailsAtOnce(t, p);
    }
  }

  lemma FailsAtOnce(t: string, p: nat)
    requires p <= |t| && ReadPieces(t, p).Err?
    requires p < |t| ==> if t[p] == '\\' then ReadEscape(t, p + 1).Err? else t[p] as int < 0x20
    ensures FailsBehind(t, p, [], ReadPieces(t, p).error)
  {
    hide IsHexDigit;
    assert RenderPieces([]) == "" && Has(t, p, "");
    if p + 1 < |t| && t[p] == '\\' {
      NoShort(t[p + 1]);
    }
  }

  lemma FailsLater(t: string, p: nat, x: Piece, rest: seq<Piece>, error: ScanError)
    requires WFPiece(x) && Has(t, p, RenderPiece(x)) && FailsBehind(t, p + |RenderPiece(x)|, rest, error)
    ensures FailsBehind(t, p, [x] + rest, error)
  {
    hide Has, RenderPiece, RenderPieces, IsHexDigit;
    PiecesCons(x, rest);
    HasConcat(t, p, RenderPiece(x), RenderPieces(rest));
  }

  lemma NoShort(c: char)
    ensures !IsShort(c) && c != 'u' ==> c !in "\"\\/bfnrtu"
  {
  }

  /** A text that is no string token where one is read has no quote there, or goes wrong right behind
      the good pieces at its beginning, in the way the error says. */
  lemma StringErrors(t: string, p: nat) returns (ps: seq<Piece>)
    requires p <= |t| && ReadString(t, p).Err?
    ensures if p == |t| || t[p] != '"' then ReadString(t, p).error == ExpectedString
            else FailsBehind(t, p + 1, ps, ReadString(t, p).error)
  {
    hide ReadPieces, FailsBehind;
    ps := [];
    if p < |t| && t[p] == '"' {
      ps := PiecesFail(t, p + 1);
    }
  }

  /** Whatever is read is a well-formed tree whose rendering is exactly the text consumed. */
  lemma {:induction false} ReadValueSound(t: string, p: nat)
    requires p <= |t| && ReadValue(t, p).Ok?
    ensures WF(ReadValue(t, p).value)
    ensures Has(t, p, Render(ReadValue(t, p).value))
    ensures ReadValue(t, p).end == p + |Render(ReadValue(t, p).value)|
    decreases |t| - p, 1
  {
    hide Has, SkipWs, ReadObject, ReadArray, ReadString;
    if t[p] == '{' {
      ReadObjectSound(t, p, false);
    } else if t[p] == '[' {
      ReadArraySound(t, p);
    } else if t[p] == '"' {
      ReadStringSound(t, p);
    } else {
      HasSlice(t, p, t[p..RunEnd(t, p)]);
    }
  }

  lemma {:induction false} ReadArraySound(t: string, p: nat)
    requires p < |t| && t[p] == '[' && ReadArray(t, p).Ok?
    ensures WF(ReadArray(t, p).value)
    ensures Has(t, p, Render(ReadArray(t, p).value))
    ensures ReadArray(t, p).end == p + |Render(ReadArray(t, p).value)|
    decreases |t| - p, 0
  {
    hide Has, SkipWs, ReadElements, WFElements, RenderElements, Blank, Render;
    var b := SkipWs(t, p + 1);
    SkippedIsBlank(t, p + 1);
    EmptyWF();
    HasByte(t, p, '[');
    HasByte(t, b, ']');
    if !(b < |t| && t[b] == ']') {
      ReadElementsSound(t, b);
    }
    ArrayParts(t, p, t[p + 1..b], ReadArray(t, p).value.elements);
  }

  /** One turn of the loop over elements, when it succeeds. */
  lemma ElementsTurn(t: string, p: nat)
    requires p <= |t| && ReadElements(t, p).Ok?
    ensures ReadValue(t, p).Ok?
    ensures var r := ReadValue(t, p); var a := SkipWs(t, r.end);
            a < |t| && (t[a] == ',' || t[a] == ']') &&
            (t[a] == ']' ==> ReadElements(t, p) == Ok([Element(r.value, t[r.end..a], "")] + [], a + 1)) &&
            (t[a] == ',' ==> var n := SkipWs(t, a + 1);
              ReadElements(t, n).Ok? &&
              ReadElements(t, p) == Ok([Element(r.value, t[r.end..a], t[a + 1..n])] + ReadElements(t, n).value,
                ReadElements(t, n).end))
  {
    hide SkipWs, ReadValue;
    var e := Element(ReadValue(t, p).value, t[ReadValue(t, p).end..SkipWs(t, ReadValue(t, p).end)], "");
    assert [e] + [] == [e];
  }

  lemma {:induction false} ReadElementsSound(t: string, p: nat)
    requires p <= |t| && ReadElements(t, p).Ok?
    ensures WFElements(ReadElements(t, p).value)
    ensures Has(t, p, RenderElements(ReadElements(t, p).value))
    ensures ReadElements(t, p).end == p + |RenderElements(ReadElements(t, p).value)|
    decreases |t| - p, 2
  {
    hide Has, SkipWs, WF, WFElements, Render, RenderElements, ReadValue, ReadElements, Blank;
    ElementsTurn(t, p);
    ReadValueSound(t, p);
    var v, q := ReadValue(t, p).value, ReadValue(t, p).end;
    var a := SkipWs(t, q);
    SkippedIsBlank(t, q);
    HasByte(t, a, t[a]);
    EmptyWF();
    if t[a] == ',' {
      var n := SkipWs(t, a + 1);
      SkippedIsBlank(t, a + 1);
      ReadElementsSound(t, n);
      var e, rest := Element(v, t[q..a], t[a + 1..n]), ReadElements(t, n).value;
      WFElementsCons(e, rest);
      ElementsTailParts(t, a, e, rest);
      ElementsParts(t, p, e, rest);
    } else {
      var e := Element(v, t[q..a], "");
      WFElementsCons(e, []);
      ElementsParts(t, p, e, []);
    }
  }

  lemma EmptyWF()
    ensures WFElements([]) && WFMembers([]) && Blank("")
  {
  }

  lemma {:induction false} ReadObjectSound(t: string, p: nat, top: bool)
    requires p < |t| && t[p] == '{' && ReadObject(t, p, top).Ok?
    ensures WF(ReadObject(t, p, top).value)
    ensures Has(t, p, Render(ReadObject(t, p, top).value))
    ensures ReadObject(t, p, top).end == p + |Render(ReadObject(t, p, top).value)|
    decreases |t| - p, 0
  {
    hide Has, SkipWs, ReadMembers, WFMembers, RenderMembers, Blank, Render;
    var b := SkipWs(t, p + 1);
    SkippedIsBlank(t, p + 1);
    EmptyWF();
    HasByte(t, p, '{');
    HasByte(t, b, '}');
    if !(b < |t| && t[b] == '}') {
      ReadMembersSound(t, b, top);
    }
    ObjectParts(t, p, t[p + 1..b], ReadObject(t, p, top).value.members);
  }

  lemma {:induction false} ReadFieldSound(t: string, p: nat, top: bool)
    requires p <= |t| && ReadField(t, p, top).Ok?
    ensures WFField(ReadField(t, p, top).value)
    ensures Has(t, p, RenderField(ReadField(t, p, top).value))
    ensures ReadField(t, p, top).end == p + |RenderField(ReadField(t, p, top).value)|
    decreases |t| - p, 2
  {
    hide Has, SkipWs, Render, RenderField, Quoted, WF, WFPieces, Blank, ReadValue, ReadString;
    var k := ReadString(t, p).end;
    ReadStringSound(t, p);
    var c := SkipWs(t, k);
    SkippedIsBlank(t, k);
    HasByte(t, c, ':');
    var s := SkipWs(t, c + 1);
    SkippedIsBlank(t, c + 1);
    var q := ReadValue(t, s).end;
    ReadValueSound(t, s);
    SkippedIsBlank(t, q);
    FieldParts(t, p, ReadField(t, p, top).value);
  }

  /** One turn of the loop over members, when it succeeds. */
  lemma MembersTurn(t: string, p: nat, top: bool)
    requires p <= |t| && ReadMembers(t, p, top).Ok?
    ensures p < |t| && ReadField(t, p, top).Ok?
    ensures var r := ReadField(t, p, top); var a := r.end;
            a < |t| && (t[a] == ',' || t[a] == '}') &&
            (t[a] == '}' ==> ReadMembers(t, p, top) == Ok([r.value] + [], a + 1)) &&
            (t[a] == ',' ==> var n := SkipWs(t, a + 1);
              ReadMembers(t, n, top).Ok? &&
              ReadMembers(t, p, top) ==
                Ok([r.value.(gap := t[a + 1..n])] + ReadMembers(t, n, top).value, ReadMembers(t, n, top).end))
  {
    hide SkipWs, ReadField;
    var m := ReadField(t, p, top).value;
    assert [m] + [] == [m];
  }

  lemma {:induction false} ReadMembersSound(t: string, p: nat, top: bool)
    requires p <= |t| && ReadMembers(t, p, top).Ok?
    ensures WFMembers(ReadMembers(t, p, top).value)
    ensures Has(t, p, RenderMembers(ReadMembers(t, p, top).value))
    ensures ReadMembers(t, p, top).end == p + |RenderMembers(ReadMembers(t, p, top).value)|
    decreases |t| - p, 3
  {
    hide Has, SkipWs, WFField, WFMembers, RenderMembers, RenderField, Blank, ReadMembers, ReadField;
    MembersTurn(t, p, top);
    var m, a := ReadField(t, p, top).value, ReadField(t, p, top).end;
    ReadFieldSound(t, p, top);
    EmptyWF();
    HasByte(t, a, t[a]);
    if t[a] == ',' {
      var n := SkipWs(t, a + 1);
      SkippedIsBlank(t, a + 1);
      ReadMembersSound(t, n, top);
      var m', rest := m.(gap := t[a + 1..n]), ReadMembers(t, n, top).value;
      SameField(m, t[a + 1..n]);
      WFMembersCons(m', rest);
      MembersTailParts(t, a, m', rest);
      MembersParts(t, p, m', rest);
    } else {
      WFMembersCons(m, []);
      MembersParts(t, p, m, []);
    }
  }

  lemma SameField(m: Member, gap: string)
    ensures WFField(m.(gap := gap)) == WFField(m) && RenderField(m.(gap := gap)) == RenderField(m)
  {
  }

  // --------------------------------------------------------- completeness

  /** Where a bare run may end: at the end of the text or before a byte that stops it. */
  predicate StopsAt(t: string, p: nat) {
    p >= |t| || IsStop(t[p])
  }

  lemma {:induction false} ReadPiecesComplete(t: string, p: nat, ps: seq<Piece>)
    requires WFPieces(ps) && Has(t, p, RenderPieces(ps) + "\"")
    ensures p <= |t| && ReadPieces(t, p) == Ok(ps, p + |RenderPieces(ps)| + 1)
    decreases |ps|
  {
    hide Has;
    if ps == [] {
      assert RenderPieces(ps) + "\"" == ['"'];
      HasByte(t, p, '"');
    } else {
      var x, rest := ps[0], ps[1..];
      assert ps == [x] + rest;
      PiecesParts(t, p, x, rest);
      PieceComplete(t, p, x);
      ReadPiecesComplete(t, p + |RenderPiece(x)|, rest);
    }
  }

  lemma PieceComplete(t: string, p: nat, x: Piece)
    requires WFPiece(x) && Has(t, p, RenderPiece(x))
    ensures p < |t| && t[p] != '"'
    ensures x.Plain? ==> t[p] == x.c && t[p] != '\\' && t[p] as int >= 0x20
    ensures !x.Plain? ==> t[p] == '\\' && ReadEscape(t, p + 1) == Ok(x, p + |RenderPiece(x)|)
  {
    var s := RenderPiece(x);
    assert t[p + 0] == s[0];
    if !x.Plain? {
      assert t[p + 1] == s[1];
    }
    if x.Hex? {
      assert t[p + 2] == s[2] && t[p + 3] == s[3] && t[p + 4] == s[4] && t[p + 5] == s[5];
    }
  }

  lemma ReadStringComplete(t: string, p: nat, ps: seq<Piece>)
    requires WFPieces(ps) && Has(t, p, Quoted(ps))
    ensures p < |t| && t[p] == '"' && ReadString(t, p) == Ok(ps, p + |Quoted(ps)|)
  {
    hide Has;
    QuotedParts(t, p, ps);
    HasByte(t, p, '"');
    ReadPiecesComplete(t, p + 1, ps);
  }

  lemma {:induction false} RunComplete(t: string, p: nat, run: string)
    requires Has(t, p, run) && StopsAt(t, p + |run|)
    requires forall i :: 0 <= i < |run| ==> !IsStop(run[i])
    ensures p <= |t| && RunEnd(t, p) == p + |run|
    decreases |run|
  {
    if run == "" {
    } else {
      assert t[p + 0] == run[0];
      assert forall i :: 0 <= i < |run[1..]| ==> t[p + 1 + i] == t[p + (1 + i)] == run[1..][i];
      RunComplete(t, p + 1, run[1..]);
    }
  }

  /** The first byte of a rendered value tells which kind it is; it is never blank or a stop. */
  lemma ValueHead(t: string, p: nat, v: Value)
    requires WF(v) && Has(t, p, Render(v))
    ensures p < |t| && !IsStop(t[p])
    ensures v.Obj? <==> t[p] == '{'
    ensures v.Arr? <==> t[p] == '['
    ensures v.Str? <==> t[p] == '"'
  {
    assert t[p + 0] == Render(v)[0];
  }

  /** Blanks are skipped exactly when a byte that is not blank follows. */
  lemma BlanksComplete(t: string, p: nat, w: string, c: char)
    requires Has(t, p, w) && Blank(w) && p + |w| < |t| && t[p + |w|] == c && !IsSpace(c)
    ensures SkipWs(t, p) == p + |w| && t[p..p + |w|] == w
  {
    SkipWsExact(t, p, w);
    HasSlice(t, p, w);
  }

  /** Every rendering of a well-formed tree is read back as that very tree, wherever it stands. */
  lemma {:induction false} ReadValueComplete(t: string, p: nat, v: Value)
    requires WF(v) && Has(t, p, Render(v))
    requires v.Scalar? ==> StopsAt(t, p + |Render(v)|)
    ensures p <= |t| && ReadValue(t, p) == Ok(v, p + |Render(v)|)
    decreases v, 1
  {
    hide Has, SkipWs, ReadObject, ReadArray, ReadString, RunEnd, Quoted;
    ValueHead(t, p, v);
    match v
    case Scalar(run) =>
      RunComplete(t, p, run);
      HasSlice(t, p, run);
    case Str(pieces) => ReadStringComplete(t, p, pieces);
    case Arr(blank, es) => ReadArrayComplete(t, p, blank, es);
    case Obj(blank, ms) => ReadObjectComplete(t, p, blank, ms, false);
  }

  lemma {:induction false} ReadArrayComplete(t: string, p: nat, blank: string, es: seq<Element>)
    requires Blank(blank) && WFElements(es) && Has(t, p, Render(Arr(blank, es)))
    requires p < |t| && t[p] == '['
    ensures ReadArray(t, p) == Ok(Arr(blank, es), p + |Render(Arr(blank, es))|)
    decreases es, 1
  {
    hide Has, SkipWs, ReadElements, WFElements, RenderElements, Render;
    ArrayParts(t, p, blank, es);
    var b := p + 1 + |blank|;
    HasByte(t, b, ']');
    if es != [] {
      ElementsHead(t, b, es);
      ReadElementsComplete(t, b, es);
    }
    BlanksComplete(t, p + 1, blank, t[b]);
  }

  lemma ElementsHead(t: string, p: nat, es: seq<Element>)
    requires es != [] && WFElements(es) && Has(t, p, RenderElements(es))
    ensures p < |t| && !IsStop(t[p]) && !IsSpace(t[p])
  {
    hide Has;
    assert es == [es[0]] + es[1..];
    ElementsParts(t, p, es[0], es[1..]);
    ValueHead(t, p, es[0].value);
  }

  lemma {:induction false} ReadElementsComplete(t: string, p: nat, es: seq<Element>)
    requires es != [] && WFElements(es) && Has(t, p, RenderElements(es))
    ensures p <= |t| && ReadElements(t, p) == Ok(es, p + |RenderElements(es)|)
    decreases es, 0
  {
    hide Has, WF, Render, RenderElements, ReadValue, ReadElements, SkipWs, StopsAt, IsStop, IsSpace, Blank;
    var e, rest := es[0], es[1..];
    assert es == [e] + rest;
    ElementsParts(t, p, e, rest);
    var q := p + |Render(e.value)|;
    var a := q + |e.after|;
    var c := if rest == [] then ']' else ',';
    if rest == [] {
      HasByte(t, a, ']');
    } else {
      ElementsTailParts(t, a, e, rest);
      HasByte(t, a, ',');
      var n := a + 1 + |e.gap|;
      ElementsHead(t, n, rest);
      BlanksComplete(t, a + 1, e.gap, t[n]);
      ReadElementsComplete(t, n, rest);
    }
    SkipToStop(t, q, e.after, c);
    ReadValueComplete(t, p, e.value);
    ElementsTurnForward(t, p, e, rest);
  }

  /** One turn of the loop over elements, put together from what its parts read. */
  lemma ElementsTurnForward(t: string, p: nat, e: Element, rest: seq<Element>)
    requires p < |t| && ReadValue(t, p).Ok? && e.value == ReadValue(t, p).value
    requires var q := ReadValue(t, p).end; var a := SkipWs(t, q);
             a < |t| && e.after == t[q..a] && t[a] == (if rest == [] then ']' else ',') &&
             (if rest == [] then e.gap == ""
              else var n := SkipWs(t, a + 1);
                   e.gap == t[a + 1..n] && ReadElements(t, n).Ok? && ReadElements(t, n).value == rest)
    ensures ReadElements(t, p).Ok? && ReadElements(t, p).value == [e] + rest
    ensures ReadElements(t, p).end ==
            var a := SkipWs(t, ReadValue(t, p).end); if rest == [] then a + 1 else ReadElements(t, SkipWs(t, a + 1)).end
  {
    hide ReadValue, SkipWs;
    assert [e] + [] == [e];
  }

  /** Blanks before a comma or a bracket are skipped, and a bare run before them ends there. */
  lemma SkipToStop(t: string, q: nat, w: string, c: char)
    requires Has(t, q, w) && Blank(w) && q + |w| < |t| && t[q + |w|] == c && (c == ',' || c == ']' || c == '}')
    ensures StopsAt(t, q) && SkipWs(t, q) == q + |w| && t[q..q + |w|] == w
  {
    if w != "" {
      assert t[q + 0] == w[0];
    }
    BlanksComplete(t, q, w, c);
  }

  lemma {:induction false} ReadObjectComplete(t: string, p: nat, blank: string, ms: seq<Member>, top: bool)
    requires Blank(blank) && WFMembers(ms) && Has(t, p, Render(Obj(blank, ms)))
    requires p < |t| && t[p] == '{'
    ensures ReadObject(t, p, top) == Ok(Obj(blank, ms), p + |Render(Obj(blank, ms))|)
    decreases ms, 2
  {
    hide Has, SkipWs, ReadMembers, WFMembers, RenderMembers, Render;
    ObjectParts(t, p, blank, ms);
    var b := p + 1 + |blank|;
    HasByte(t, b, '}');
    if ms != [] {
      MembersHead(t, b, ms);
      ReadMembersComplete(t, b, ms, top);
    }
    BlanksComplete(t, p + 1, blank, t[b]);
  }

  lemma MembersHead(t: string, p: nat, ms: seq<Member>)
    requires ms != [] && WFMembers(ms) && Has(t, p, RenderMembers(ms))
    ensures p < |t| && t[p] == '"'
  {
    hide Has, Quoted;
    assert ms == [ms[0]] + ms[1..];
    MembersParts(t, p, ms[0], ms[1..]);
    FieldParts(t, p, ms[0]);
    QuotedParts(t, p, ms[0].key);
    HasByte(t, p, '"');
  }

  lemma {:induction false} ReadMembersComplete(t: string, p: nat, ms: seq<Member>, top: bool)
    requires ms != [] && WFMembers(ms) && Has(t, p, RenderMembers(ms))
    ensures p <= |t| && ReadMembers(t, p, top) == Ok(ms, p + |RenderMembers(ms)|)
    decreases ms, 1
  {
    hide Has, WFField, RenderField, RenderMembers, ReadField, ReadMembers, SkipWs;
    var m, rest := ms[0], ms[1..];
    assert ms == [m] + rest;
    MembersParts(t, p, m, rest);
    var a := p + |RenderField(m)|;
    if rest == [] {
      HasByte(t, a, '}');
    } else {
      MembersTailParts(t, a, m, rest);
      HasByte(t, a, ',');
      var n := a + 1 + |m.gap|;
      MembersHead(t, n, rest);
      BlanksComplete(t, a + 1, m.gap, t[n]);
      ReadMembersComplete(t, n, rest, top);
    }
    ReadFieldComplete(t, p, m, if rest == [] then '}' else ',', top);
    MembersTurnForward(t, p, m, rest, top);
  }

  /** One turn of the loop over members, put together from what its parts read. */
  lemma MembersTurnForward(t: string, p: nat, m: Member, rest: seq<Member>, top: bool)
    requires p < |t| && ReadField(t, p, top).Ok? && m.(gap := "") == ReadField(t, p, top).value
    requires var a := ReadField(t, p, top).end;
             a < |t| && t[a] == (if rest == [] then '}' else ',') &&
             (if rest == [] then m.gap == ""
              else var n := SkipWs(t, a + 1);
                   m.gap == t[a + 1..n] && ReadMembers(t, n, top).Ok? && ReadMembers(t, n, top).value == rest)
    ensures ReadMembers(t, p, top).Ok? && ReadMembers(t, p, top).value == [m] + rest
    ensures ReadMembers(t, p, top).end ==
            var a := ReadField(t, p, top).end; if rest == [] then a + 1 else ReadMembers(t, SkipWs(t, a + 1), top).end
  {
    hide ReadField, SkipWs;
    assert [m] + [] == [m];
  }

  lemma {:induction false} ReadFieldComplete(t: string, p: nat, m: Member, stop: char, top: bool)
    requires WFField(m) && Has(t, p, RenderField(m))
    requires var a := p + |RenderField(m)|; a < |t| && t[a] == stop && (stop == ',' || stop == '}')
    ensures p <= |t| && ReadField(t, p, top) == Ok(m.(gap := ""), p + |RenderField(m)|)
    decreases m, 0
  {
    hide Has, WF, Render, RenderField, ReadValue, Quoted, ReadString, SkipWs;
    FieldParts(t, p, m);
    var k := p + |Quoted(m.key)|;
    var c := k + |m.mid|;
    var s := c + 1 + |m.lead|;
    var q := s + |Render(m.value)|;
    ReadStringComplete(t, p, m.key);
    HasByte(t, c, ':');
    BlanksComplete(t, k, m.mid, ':');
    ValueHead(t, s, m.value);
    BlanksComplete(t, c + 1, m.lead, t[s]);
    SkipToStop(t, q, m.after, stop);
    ReadValueComplete(t, s, m.value);
  }
}

/** The concrete syntax of the JSON text this code accepts, independent of how it is read:
    a tree that remembers every byte, `Render` to turn it back into text, and `WF` to say
    which trees are text of the language (sections 2 to 7 of RFC 8259, with bare runs of
    bytes for numbers and literals and the six C blanks for white space). */
module JsonGrammar {
  import opened Bytes
  import opened Decimals

  // ---------------------------------------------------------------- UTF-8

  predicate IsHexDigit(c: char) {
    '0' <= c <= '9' || 'a' <= c <= 'f' || 'A' <= c <= 'F'
  }

  function HexDigitValue(c: char): (v: nat)
    requires IsHexDigit(c)
    ensures v < 16
  {
    if '0' <= c <= '9' then c as int - '0' as int
    else if 'a' <= c <= 'f' then 10 + c as int - 'a' as int
    else 10 + c as int - 'A' as int
  }

  function Byte(n: nat): (c: char)
    requires n < 256
    ensures c as int == n
  {
    n as char
  }

  /** The bytes the code emits for a code point. */
  function Utf8(cp: nat): (s: string)
    requires cp <= 0x10FFFF
    ensures 1 <= |s| <= 4
    ensures forall i :: 0 <= i < |s| ==> s[i] as int < 256
  {
    if cp <= 0x7F then [Byte(cp)]
    else if cp <= 0x7FF then [Byte(0xC0 + cp / 64), Byte(0x80 + cp % 64)]
    else if cp <= 0xFFFF then [Byte(0xE0 + cp / 4096), Byte(0x80 + cp / 64 % 64), Byte(0x80 + cp % 64)]
    else [Byte(0xF0 + cp / 262144), Byte(0x80 + cp / 4096 % 64), Byte(0x80 + cp / 64 % 64), Byte(0x80 + cp % 64)]
  }

  // -------------------------------------------------------------- strings

  /** One item of a string token: a literal byte, a two-byte escape, or `\uXXXX`. */
  datatype Piece =
    | Plain(c: char)
    | Short(c: char)
    | Hex(a: char, b: char, c: char, d: char)

  ghost predicate WFPiece(p: Piece) {
    match p
    case Plain(c) => c as int >= 0x20 && c != '"' && c != '\\'
    case Short(c) => IsShort(c)
    case Hex(a, b, c, d) => IsHexDigit(a) && IsHexDigit(b) && IsHexDigit(c) && IsHexDigit(d)
  }

  predicate IsShort(c: char) {
    c == '"' || c == '\\' || c == '/' || c == 'b' || c == 'f' || c == 'n' || c == 'r' || c == 't'
  }

  function ShortMeaning(c: char): char
    requires IsShort(c)
  {
    match c
    case 'b' => '\U{08}'
    case 'f' => '\U{0C}'
    case 'n' => '\n'
    case 'r' => '\r'
    case 't' => '\t'
    case _ => c
  }

  function HexValue(a: char, b: char, c: char, d: char): (v: nat)
    requires IsHexDigit(a) && IsHexDigit(b) && IsHexDigit(c) && IsHexDigit(d)
    ensures v <= 0xFFFF
  {
    ((HexDigitValue(a) * 16 + HexDigitValue(b)) * 16 + HexDigitValue(c)) * 16 + HexDigitValue(d)
  }

  function RenderPiece(p: Piece): (s: string)
    ensures |s| > 0
  {
    match p
    case Plain(c) => [c]
    case Short(c) => ['\\', c]
    case Hex(a, b, c, d) => ['\\', 'u', a, b, c, d]
  }

  function DecodePiece(p: Piece): string
    requires WFPiece(p)
  {
    match p
    case Plain(c) => [c]
    case Short(c) => [ShortMeaning(c)]
    case Hex(a, b, c, d) => Utf8(HexValue(a, b, c, d))
  }

  ghost predicate WFPieces(ps: seq<Piece>) {
    forall i :: 0 <= i < |ps| ==> WFPiece(ps[i])
  }

  function RenderPieces(ps: seq<Piece>): string {
    if ps == [] then "" else RenderPiece(ps[0]) + RenderPieces(ps[1..])
  }

  function Decode(ps: seq<Piece>): string
    requires WFPieces(ps)
  {
    if ps == [] then "" else DecodePiece(ps[0]) + Decode(ps[1..])
  }

  function Quoted(ps: seq<Piece>): string {
    "\"" + (RenderPieces(ps) + "\"")
  }

  // --------------------------------------------------------------- values

  /** `gap` is the white space after the comma that follows; the last item has none. */
  datatype Element = Element(value: Value, after: string, gap: string)
  datatype Member = Member(key: seq<Piece>, mid: string, lead: string, value: Value, after: string, gap: string)

  /** `blank` is the white space after the opening bracket. */
  datatype Value =
    | Scalar(run: string)
    | Str(pieces: seq<Piece>)
    | Arr(blank: string, elements: seq<Element>)
    | Obj(blank: string, members: seq<Member>)

  /** A byte that ends a bare run. */
  predicate IsStop(c: char) {
    c == ',' || c == '}' || c == ']' || IsSpace(c)
  }

  ghost predicate WFRun(run: string) {
    run != "" && run[0] != '{' && run[0] != '[' && run[0] != '"' &&
    forall i :: 0 <= i < |run| ==> !IsStop(run[i])
  }

  ghost predicate WF(v: Value) {
    match v
    case Scalar(run) => WFRun(run)
    case Str(pieces) => WFPieces(pieces)
    case Arr(blank, elements) => Blank(blank) && WFElements(elements)
    case Obj(blank, members) => Blank(blank) && WFMembers(members)
  }

  ghost predicate WFElements(es: seq<Element>) {
    es == [] ||
    (WF(es[0].value) && Blank(es[0].after) && Blank(es[0].gap) &&
     (|es| == 1 ==> es[0].gap == "") && WFElements(es[1..]))
  }

  ghost predicate WFMembers(ms: seq<Member>) {
    ms == [] || (WFField(ms[0]) && Blank(ms[0].gap) && (|ms| == 1 ==> ms[0].gap == "") && WFMembers(ms[1..]))
  }

  ghost predicate WFField(m: Member) {
    WFPieces(m.key) && Blank(m.mid) && Blank(m.lead) && WF(m.value) && Blank(m.after)
  }

  function Render(v: Value): string {
    match v
    case Scalar(run) => run
    case Str(pieces) => Quoted(pieces)
    case Arr(blank, elements) => "[" + (blank + (if elements == [] then "]" else RenderElements(elements)))
    case Obj(blank, members) => "{" + (blank + (if members == [] then "}" else RenderMembers(members)))
  }

  /** The items of a non-empty array, its closing bracket included. */
  function RenderElements(es: seq<Element>): string
    requires es != []
  {
    Render(es[0].value) + (es[0].after +
      (if |es| == 1 then "]" else "," + (es[0].gap + RenderElements(es[1..]))))
  }

  /** The members of a non-empty object, its closing brace included. */
  function RenderMembers(ms: seq<Member>): string
    requires ms != []
  {
    RenderField(ms[0]) + (if |ms| == 1 then "}" else "," + (ms[0].gap + RenderMembers(ms[1..])))
  }

  /** A key, its colon and its value, with the blanks around them. */
  function RenderField(m: Member): string {
    Quoted(m.key) + (m.mid + (":" + (m.lead + (Render(m.value) + m.after))))
  }

  // ------------------------------------------------------------- RFC 8259

  /** The parts of a number in section 6 of RFC 8259. */
  datatype Number = Number(minus: bool, whole: string, frac: Option<string>, exp: Option<(char, string, string)>)

  ghost predicate Digits(s: string) {
    s != "" && AllDigits(s)
  }

  ghost predicate WFNumber(n: Number) {
    Digits(n.whole) && (|n.whole| > 1 ==> n.whole[0] != '0') && (n.frac.Some? ==> Digits(n.frac.value)) &&
    (n.exp.Some? ==> n.exp.value.0 in {'e', 'E'} && n.exp.value.1 in {"", "+", "-"} && Digits(n.exp.value.2))
  }

  function RenderNumber(n: Number): string {
    (if n.minus then "-" else "") + n.whole + (match n.frac case Some(f) => "." + f case None => "") +
    (match n.exp case Some(e) => [e.0] + e.1 + e.2 case None => "")
  }

  ghost predicate NumberBytes(s: string) {
    forall i :: 0 <= i < |s| ==> '0' <= s[i] <= '9' || s[i] in {'-', '+', '.', 'e', 'E'}
  }

  lemma NumberBytesConcat(a: string, b: string)
    requires NumberBytes(a) && NumberBytes(b)
    ensures NumberBytes(a + b)
  {
  }

  lemma NumberIsBare(s: string)
    requires s != "" && NumberBytes(s)
    ensures WFRun(s)
  {
  }

  /** The scalars of RFC 8259: its three literals and its numbers. */
  ghost predicate IsRfcScalar(run: string) {
    run in {"true", "false", "null"} || exists n: Number :: WFNumber(n) && run == RenderNumber(n)
  }

  lemma NumberIsBytes(n: Number)
    requires WFNumber(n)
    ensures NumberBytes(RenderNumber(n)) && RenderNumber(n) != ""
  {
    var sign := if n.minus then "-" else "";
    var frac := match n.frac case Some(f) => "." + f case None => "";
    var exp := match n.exp case Some(e) => [e.0] + e.1 + e.2 case None => "";
    NumberBytesConcat(sign, n.whole);
    NumberBytesConcat(sign + n.whole, frac);
    if n.exp.Some? {
      NumberBytesConcat([n.exp.value.0], n.exp.value.1);
      NumberBytesConcat([n.exp.value.0] + n.exp.value.1, n.exp.value.2);
    }
    NumberBytesConcat(sign + n.whole + frac, exp);
  }

  /** Every scalar of RFC 8259 is a bare run, so the grammar covers the whole of that language... */
  lemma ScalarsOfRfc8259(run: string)
    requires IsRfcScalar(run)
    ensures WFRun(run)
  {
    if run !in {"true", "false", "null"} {
      var n: Number :| WFNumber(n) && run == RenderNumber(n);
      NumberIsBytes(n);
      NumberIsBare(run);
    }
  }

  /** ...but not every bare run is such a scalar: scalars are not checked. */
  lemma ScalarsAreNotChecked()
    ensures WFRun("01x") && !IsRfcScalar("01x")
  {
    hide RenderNumber, WFNumber;
    assert "01x"[2] == 'x' && !NumberBytes("01x");
    forall n: Number | WFNumber(n) ensures RenderNumber(n) != "01x" {
      NumberIsBytes(n);
    }
  }
}

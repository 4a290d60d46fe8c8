/** Requests and answers written out as RFC 9112 has them, and read back. */
module HttpRoundTrip {
  import opened Bytes
  import opened Decimals
  import opened Http
  import opened HttpFraming
  import opened HttpFramingTheorems

  // --------------------------------------------------------- header fields

  /** A header field: its name, the blanks around its value, and the value. */
  datatype Field = Field(name: string, lead: string, value: string, trail: string)

  ghost function LineOf(f: Field): string {
    f.name + (":" + (f.lead + (f.value + f.trail)))
  }

  ghost predicate GoodField(f: Field) {
    ':' !in f.name && Trimmed(f.name) && Blank(f.lead) && Trimmed(f.value) && Blank(f.trail) && IsLine(LineOf(f))
  }

  ghost predicate GoodFields(fields: seq<Field>) {
    forall f: Field :: f in fields ==> GoodField(f)
  }

  ghost function LinesOf(fields: seq<Field>): (lines: seq<string>)
    ensures |lines| == |fields|
  {
    if fields == [] then [] else [LineOf(fields[0])] + LinesOf(fields[1..])
  }

  /** The last-wins map of lower-cased names to values. */
  ghost function HeaderMap(fields: seq<Field>): map<string, string> {
    if fields == [] then map[]
    else
      var last := fields[|fields| - 1];
      HeaderMap(fields[..|fields| - 1])[ToLower(last.name) := last.value]
  }

  /** A field's line splits at its colon into its name and its value. */
  lemma HeaderParts(f: Field)
    requires GoodField(f)
    ensures LineOf(f) != "" && Find(LineOf(f), ":", 0) == Some(|f.name|)
    ensures FieldName(LineOf(f), |f.name|) == ToLower(f.name)
    ensures Trim(LineOf(f)[|f.name| + 1..]) == f.value
  {
    hide Find, Trim, IsLine;
    var line, rest := LineOf(f), f.lead + (f.value + f.trail);
    FindBehind(f.name, ':', rest);
    assert line[..|f.name|] == f.name;
    assert line[|f.name| + 1..] == rest;
    TrimExact("", f.name, "");
    assert "" + f.name + "" == f.name;
    TrimExact(f.lead, f.value, f.trail);
    assert f.lead + f.value + f.trail == rest;
  }

  lemma {:induction false} HeadersAppend(a: seq<string>, line: string, sofar: map<string, string>)
    ensures HeadersIn(a + [line], sofar) ==
            match HeadersIn(a, sofar) case None => None case Some(m) => HeadersIn([line], m)
    decreases |a|
  {
    hide Find, FieldName, Trim;
    if a == [] {
      assert a + [line] == [line];
    } else {
      assert (a + [line])[1..] == a[1..] + [line];
      if a[0] == "" {
        HeadersAppend(a[1..], line, sofar);
      } else {
        var colon := Find(a[0], ":", 0);
        if colon.Some? {
          HeadersAppend(a[1..], line, sofar[FieldName(a[0], colon.value) := Trim(a[0][colon.value + 1..])]);
        }
      }
    }
  }

  lemma {:induction false} LinesOfAppend(a: seq<Field>, b: seq<Field>)
    ensures LinesOf(a + b) == LinesOf(a) + LinesOf(b)
    decreases |a|
  {
    if a == [] {
      assert a + b == b;
    } else {
      assert (a + b)[1..] == a[1..] + b;
      LinesOfAppend(a[1..], b);
    }
  }

  lemma {:induction false} HeadersOfFields(fields: seq<Field>)
    requires GoodFields(fields)
    ensures HeadersIn(LinesOf(fields), map[]) == Some(HeaderMap(fields))
    decreases |fields|
  {
    hide GoodField, FieldName, Trim, Find, LineOf;
    if fields == [] {
    } else {
      var front, last := fields[..|fields| - 1], fields[|fields| - 1];
      assert fields == front + [last] && forall f: Field :: f in front ==> f in fields;
      HeadersOfFields(front);
      LinesOfAppend(front, [last]);
      assert last in fields;
      OneHeader(last, HeaderMap(front));
      HeadersAppend(LinesOf(front), LineOf(last), map[]);
    }
  }

  lemma OneHeader(f: Field, sofar: map<string, string>)
    requires GoodField(f)
    ensures LinesOf([f]) == [LineOf(f)]
    ensures HeadersIn([LineOf(f)], sofar) == Some(sofar[ToLower(f.name) := f.value])
  {
    hide GoodField, FieldName, Trim, Find, LineOf;
    HeaderParts(f);
    assert [LineOf(f)][1..] == [] && [f][1..] == [];
  }

  // ---------------------------------------------------------- body length

  /** One unusable length field spoils the request; otherwise the last length counts. */
  lemma {:induction false} BodyLengthMeaning(lines: seq<string>, sofar: nat)
    ensures BodyLength(lines, sofar).None? <==> exists l: string :: l in lines && LengthIn(l).BadLength?
    ensures BodyLength(lines, sofar).Some? ==>
              if exists l: string :: l in lines && LengthIn(l).Length?
              then exists k: nat :: k < |lines| && LengthIn(lines[k]) == Length(BodyLength(lines, sofar).value) &&
                                    forall j :: k < j < |lines| ==> LengthIn(lines[j]).NoLength?
              else BodyLength(lines, sofar).value == sofar
    decreases |lines|
  {
    hide LengthIn;
    if lines == [] {
    } else {
      var field := LengthIn(lines[0]);
      var next := if field.Length? then field.n else sofar;
      BodyLengthMeaning(lines[1..], next);
      assert lines == [lines[0]] + lines[1..];
      if !field.BadLength? && BodyLength(lines[1..], next).Some? {
        if exists l: string :: l in lines[1..] && LengthIn(l).Length? {
          var k: nat :| k < |lines[1..]| && LengthIn(lines[1..][k]) == Length(BodyLength(lines[1..], next).value) &&
                        forall j :: k < j < |lines[1..]| ==> LengthIn(lines[1..][j]).NoLength?;
          assert LengthIn(lines[k + 1]) == Length(BodyLength(lines, sofar).value);
          assert forall j :: k + 1 < j < |lines| ==> lines[j] == lines[1..][j - 1];
        } else if field.Length? {
          assert LengthIn(lines[0]) == Length(BodyLength(lines, sofar).value);
          assert forall j :: 0 < j < |lines| ==> lines[j] in lines[1..];
        }
      }
    }
  }

  /** With one usable length line and no other, its length is the body length. */
  lemma OneLength(lines: seq<string>, k: nat, n: nat)
    requires k < |lines| && LengthIn(lines[k]) == Length(n)
    requires forall j :: 0 <= j < |lines| && j != k ==> LengthIn(lines[j]).NoLength?
    ensures BodyLength(lines, 0) == Some(n)
  {
    hide LengthIn, BodyLength;
    BodyLengthMeaning(lines, 0);
    assert lines[k] in lines;
  }

  lemma FieldLength(f: Field)
    requires GoodField(f)
    ensures LengthIn(LineOf(f)) ==
            if ToLower(f.name) != "content-length" then NoLength
            else match LengthOf(f.value) case None => BadLength case Some(n) => Length(n)
  {
    hide GoodField, FieldName, Trim, Find, LineOf, AllDigits, DecimalValue;
    HeaderParts(f);
    ValueTrims(f);
  }

  lemma ValueTrims(f: Field)
    requires GoodField(f)
    ensures Trim(f.value) == f.value
  {
    hide Trim, Find, IsLine;
    TrimExact("", f.value, "");
    assert "" + f.value + "" == f.value;
  }

  lemma PrintedLength(n: nat)
    ensures LengthOf(DecimalText(n)) == if n <= MAX_BODY_BYTES then Some(n) else None
    ensures Trimmed(DecimalText(n))
  {
    hide Trim, DecimalText, DecimalValue;
    DecimalRoundTrip(n);
    TrimExact("", DecimalText(n), "");
    assert "" + DecimalText(n) + "" == DecimalText(n);
  }

  // --------------------------------------------------------------- request

  ghost function FirstLine(verb: string, path: string, version: string): string {
    verb + (" " + (path + (" " + version)))
  }

  ghost function HeadLines(verb: string, path: string, version: string, fields: seq<Field>): (lines: seq<string>)
    ensures |lines| == |fields| + 1
  {
    [FirstLine(verb, path, version)] + LinesOf(fields)
  }

  ghost function WrittenRequest(verb: string, path: string, version: string, fields: seq<Field>, body: string): string {
    Block(HeadLines(verb, path, version, fields)) + (BLANK_LINE + body)
  }

  /** What stands before the first colon of a line is the name of the length field. */
  ghost predicate NamesLength(line: string) {
    var colon := Find(line, ":", 0);
    colon.Some? && FieldName(line, colon.value) == "content-length"
  }

  /** A request line that can be read back: two spaces part it, and it is not taken for a length. */
  ghost predicate GoodFirstLine(verb: string, path: string, version: string) {
    ' ' !in verb && ' ' !in path && IsLine(FirstLine(verb, path, version)) &&
      !NamesLength(FirstLine(verb, path, version))
  }

  lemma FirstLineParses(verb: string, path: string, version: string)
    requires ' ' !in verb && ' ' !in path
    ensures ParseRequestLine(FirstLine(verb, path, version)) == Some(RequestLine(verb, path))
  {
    hide Find;
    var line, rest := FirstLine(verb, path, version), path + (" " + version);
    FindBehind(verb, ' ', rest);
    FindBehind(path, ' ', version);
    assert line == (verb + " ") + rest;
    FindShift(verb + " ", rest, " ", 0);
    assert line[..|verb|] == verb && line[|verb| + 1..|verb| + 1 + |path|] == path;
  }

  lemma SpaceSplits(line: string)
    requires Find(line, " ", 0).Some?
    ensures var a := Find(line, " ", 0).value;
            a < |line| && ' ' !in line[..a] && line == line[..a] + (" " + line[a + 1..])
  {
    hide Find, Has;
    FindByte(line, ' ');
    CutAround(line, Find(line, " ", 0).value);
  }

  lemma CutAround(line: string, a: nat)
    requires a < |line|
    ensures line == line[..a] + ([line[a]] + line[a + 1..])
  {
  }

  /** Conversely, a request line that parses is a verb and a path up to the first two spaces. */
  lemma FirstLineSound(line: string)
    requires ParseRequestLine(line).Some?
    ensures var r := ParseRequestLine(line).value;
            ' ' !in r.verb && ' ' !in r.path && exists rest: string :: line == r.verb + (" " + (r.path + (" " + rest)))
  {
    hide Find, Has;
    SpaceSplits(line);
    var a := Find(line, " ", 0).value;
    var rest := line[a + 1..];
    assert line == line[..a + 1] + rest;
    FindShift(line[..a + 1], rest, " ", 0);
    SpaceSplits(rest);
    var b := Find(rest, " ", 0).value;
    assert rest[..b] == line[a + 1..a + 1 + b];
    assert line == line[..a] + (" " + (rest[..b] + (" " + rest[b + 1..])));
  }

  ghost predicate TwoSpaces(line: string) {
    exists i, j :: 0 <= i < j < |line| && line[i] == ' ' && line[j] == ' '
  }

  /** A request line parses exactly if it holds two spaces. */
  lemma TwoSpacesParse(line: string)
    ensures ParseRequestLine(line).Some? <==> TwoSpaces(line)
  {
    hide Find, Has;
    FindByte(line, ' ');
    var a := Find(line, " ", 0);
    if a.Some? {
      var b := Find(line, " ", a.value + 1);
      if b.Some? {
        HasByte(line, b.value, ' ');
        assert line[a.value] == ' ' && line[b.value] == ' ';
      }
      if TwoSpaces(line) {
        var i, j :| 0 <= i < j < |line| && line[i] == ' ' && line[j] == ' ';
        assert forall m :: 0 <= m < a.value ==> line[m] in line[..a.value];
        HasByte(line, j, ' ');
      }
    }
  }

  ghost predicate IsNoField(line: string) {
    line != "" && ':' !in line
  }

  lemma NoFieldExactly(line: string)
    ensures IsNoField(line) <==> line != "" && Find(line, ":", 0).None?
  {
    hide Find;
    FindByte(line, ':');
  }

  lemma {:induction false} NoFieldSpoils(lines: seq<string>, sofar: map<string, string>)
    ensures HeadersIn(lines, sofar).None? <==> exists l: string :: l in lines && IsNoField(l)
    decreases |lines|
  {
    hide Find, FieldName, Trim;
    if lines == [] {
    } else {
      hide IsNoField;
      NoFieldExactly(lines[0]);
      assert lines == [lines[0]] + lines[1..];
      var colon := Find(lines[0], ":", 0);
      if lines[0] == "" {
        NoFieldSpoils(lines[1..], sofar);
      } else if colon.Some? {
        NoFieldSpoils(lines[1..], sofar[FieldName(lines[0], colon.value) := Trim(lines[0][colon.value + 1..])]);
      } else {
        assert lines[0] in lines;
      }
    }
  }

  lemma LowerTwice(s: string)
    ensures ToLower(ToLower(s)) == ToLower(s)
  {
  }

  /** The parser makes all header names lower-case. */
  lemma {:induction false} NamesAreLower(lines: seq<string>, sofar: map<string, string>)
    requires forall n: string :: n in sofar ==> ToLower(n) == n
    ensures var headers := HeadersIn(lines, sofar);
            headers.Some? ==> forall n: string :: n in headers.value ==> ToLower(n) == n
    decreases |lines|
  {
    hide Find, Trim, ToLower;
    if lines == [] {
    } else if lines[0] == "" {
      NamesAreLower(lines[1..], sofar);
    } else if Find(lines[0], ":", 0).Some? {
      var colon := Find(lines[0], ":", 0).value;
      LowerTwice(Trim(lines[0][..colon]));
      NamesAreLower(lines[1..], sofar[FieldName(lines[0], colon) := Trim(lines[0][colon + 1..])]);
    }
  }

  /** One of the lines between the first and the last is no field. */
  ghost predicate IsSpoilt(lines: seq<string>) {
    exists k :: 0 < k < |lines| - 1 && IsNoField(lines[k])
  }

  /** What is wrong with the lines of a head: there is one alone, the first lacks a space, or one
      between the first and the last is no field. Otherwise they make up a request. */
  lemma HeadVerdict(lines: seq<string>, body: string)
    ensures var r := RequestOf(lines, body);
            (r == Failure(MalformedRequestLine) <==> |lines| < 2) &&
            (r == Failure(InvalidRequestLine) <==> |lines| >= 2 && !TwoSpaces(lines[0])) &&
            (r == Failure(MalformedHeader) <==> |lines| >= 2 && TwoSpaces(lines[0]) && IsSpoilt(lines)) &&
            (r.Success? <==> |lines| >= 2 && TwoSpaces(lines[0]) && !IsSpoilt(lines)) &&
            (r.Success? ==> r.value.body == body)
  {
    hide Find, ParseRequestLine, HeadersIn, TwoSpaces, IsNoField;
    if |lines| > 1 {
      TwoSpacesParse(lines[0]);
      var inner := lines[1..|lines| - 1];
      NoFieldSpoils(inner, map[]);
      if exists l: string :: l in inner && IsNoField(l) {
        var k :| 0 <= k < |inner| && IsNoField(inner[k]);
        assert lines[k + 1] == inner[k];
      }
      if IsSpoilt(lines) {
        var k :| 0 < k < |lines| - 1 && IsNoField(lines[k]);
        assert inner[k - 1] == lines[k];
      }
    }
  }

  lemma TrimKeeps(s: string, i: nat)
    requires i < |s| && !IsSpace(s[i])
    ensures s[i] in Trim(s)
  {
    var b := SkipWs(s, 0);
    assert b <= i && s[b..][i - b] == s[i];
    assert Trim(s)[i - b] == s[i];
  }

  /** An ordinary request line is good: its verb has no colon, and its path starts with a slash. */
  lemma OrdinaryFirstLine(verb: string, path: string, version: string)
    requires ' ' !in verb && ':' !in verb && ' ' !in path && path != "" && path[0] == '/'
    requires IsLine(FirstLine(verb, path, version))
    ensures GoodFirstLine(verb, path, version)
  {
    hide Find, Trim, IsLine;
    var line := FirstLine(verb, path, version);
    var colon := Find(line, ":", 0);
    if colon.Some? {
      FindByte(line, ':');
      var slash := |verb| + 1;
      assert line[slash] == '/' && line[|verb|] == ' ';
      assert forall i :: 0 <= i < |verb| ==> line[i] == verb[i];
      assert slash < colon.value;
      TrimKeeps(line[..colon.value], slash);
      SlashInName(Trim(line[..colon.value]));
    }
  }

  lemma FirstLineHasNoLength(verb: string, path: string, version: string)
    requires GoodFirstLine(verb, path, version)
    ensures LengthIn(FirstLine(verb, path, version)) == NoLength
  {
    hide Find, FieldName, LengthOf, IsLine, FirstLine;
  }

  lemma SlashInName(s: string)
    requires '/' in s
    ensures ToLower(s) != "content-length"
  {
    var i :| 0 <= i < |s| && s[i] == '/';
    assert ToLower(s)[i] == '/';
    assert '/' !in "content-length";
  }

  lemma {:induction false} LinesAt(fields: seq<Field>, i: nat)
    requires i < |fields|
    ensures LinesOf(fields)[i] == LineOf(fields[i])
    decreases |fields|
  {
    if i > 0 {
      LinesAt(fields[1..], i - 1);
    }
  }

  ghost predicate IsLengthField(f: Field) {
    ToLower(f.name) == "content-length"
  }

  /** The length some fields announce: zero without a length field, that of the last one with any,
      and none if any of them is unusable. */
  ghost function AnnouncedLength(fields: seq<Field>): Option<nat> {
    if fields == [] then Some(0)
    else
      var last := fields[|fields| - 1];
      match AnnouncedLength(fields[..|fields| - 1])
      case None => None
      case Some(n) => if IsLengthField(last) then LengthOf(last.value) else Some(n)
  }

  /** The last length field says `n`, or there is none and `n` is zero. */
  ghost predicate LastSays(fields: seq<Field>, n: nat) {
    (exists k: nat :: LastLengthField(fields, k) && LengthOf(fields[k].value) == Some(n)) ||
    (n == 0 && forall f: Field :: f in fields ==> !IsLengthField(f))
  }

  ghost predicate LastLengthField(fields: seq<Field>, k: nat) {
    k < |fields| && IsLengthField(fields[k]) && forall j :: k < j < |fields| ==> !IsLengthField(fields[j])
  }

  ghost predicate AllUsable(fields: seq<Field>) {
    forall f: Field :: f in fields && IsLengthField(f) ==> LengthOf(f.value).Some?
  }

  /** Fields announce a length exactly when every length field is usable, and it is the last one's,
      or zero if there is none. */
  lemma {:induction false} AnnouncedMeaning(fields: seq<Field>, n: nat)
    ensures AnnouncedLength(fields) == Some(n) <==> AllUsable(fields) && LastSays(fields, n)
    decreases |fields|
  {
    hide IsLengthField, LengthOf, AllUsable, LastSays;
    UsableExactly(fields);
    if fields == [] {
      NoneSays(n);
    } else {
      AnnouncedMeaning(fields[..|fields| - 1], n);
      UsableExactly(fields[..|fields| - 1]);
      SaysFromEnd(fields, n);
    }
  }

  lemma NoneSays(n: nat)
    ensures LastSays([], n) <==> n == 0
  {
  }

  /** Looked at from the end, either the last field says the length or it says nothing. */
  lemma SaysFromEnd(fields: seq<Field>, n: nat)
    requires fields != []
    ensures var m := |fields| - 1;
            LastSays(fields, n) <==>
              if IsLengthField(fields[m]) then LengthOf(fields[m].value) == Some(n) else LastSays(fields[..m], n)
  {
    hide IsLengthField, LengthOf;
    var m := |fields| - 1;
    var front := fields[..m];
    assert fields == front + [fields[m]] && fields[m] in fields;
    assert forall j :: 0 <= j < m ==> front[j] == fields[j];
    if IsLengthField(fields[m]) {
      assert LastLengthField(fields, m);
    } else {
      forall k: nat ensures LastLengthField(fields, k) <==> LastLengthField(front, k) {
        assert k == m ==> !IsLengthField(fields[k]);
      }
    }
  }

  lemma {:induction false} UsableExactly(fields: seq<Field>)
    ensures AnnouncedLength(fields).Some? <==> AllUsable(fields)
    decreases |fields|
  {
    hide IsLengthField, LengthOf;
    if fields == [] {
    } else {
      var front, last := fields[..|fields| - 1], fields[|fields| - 1];
      assert fields == front + [last];
      UsableExactly(front);
    }
  }

  lemma {:induction false} BodyLengthAppend(lines: seq<string>, line: string, sofar: nat)
    ensures BodyLength(lines + [line], sofar) ==
            match BodyLength(lines, sofar) case None => None case Some(n) => BodyLength([line], n)
    decreases |lines|
  {
    hide LengthIn;
    if lines == [] {
      assert lines + [line] == [line];
    } else {
      assert (lines + [line])[1..] == lines[1..] + [line];
      match LengthIn(lines[0])
      case NoLength => BodyLengthAppend(lines[1..], line, sofar);
      case BadLength =>
      case Length(n) => BodyLengthAppend(lines[1..], line, n);
    }
  }

  lemma {:induction false} HeadLength(first: string, fields: seq<Field>)
    requires GoodFields(fields) && LengthIn(first) == NoLength
    ensures BodyLength([first] + LinesOf(fields), 0) == AnnouncedLength(fields)
    decreases |fields|
  {
    hide LengthIn, GoodField, LineOf, LengthOf, BodyLength, IsLengthField, ToLower;
    if fields == [] {
      BodyLengthStep(first, [], 0);
      assert [first] + LinesOf(fields) == [first];
    } else {
      var front, last := fields[..|fields| - 1], fields[|fields| - 1];
      assert fields == front + [last] && forall f: Field :: f in front ==> f in fields;
      assert last in fields;
      HeadLength(first, front);
      LinesOfAppend(front, [last]);
      assert LinesOf([last]) == [LineOf(last)] by { assert [last][1..] == []; }
      assert [first] + LinesOf(fields) == ([first] + LinesOf(front)) + [LineOf(last)];
      BodyLengthAppend([first] + LinesOf(front), LineOf(last), 0);
      LastLength(last, if AnnouncedLength(front).Some? then AnnouncedLength(front).value else 0);
    }
  }

  lemma LastLength(f: Field, sofar: nat)
    requires GoodField(f)
    ensures BodyLength([LineOf(f)], sofar) == if IsLengthField(f) then LengthOf(f.value) else Some(sofar)
  {
    hide LengthIn, GoodField, LineOf, LengthOf, BodyLength;
    FieldLength(f);
    BodyLengthStep(LineOf(f), [], sofar);
  }

  lemma HeadLine(verb: string, path: string, version: string, fields: seq<Field>, j: nat)
    requires GoodFirstLine(verb, path, version) && GoodFields(fields) && j <= |fields|
    ensures IsHeaderLine(HeadLines(verb, path, version, fields)[j])
  {
    hide IsHeaderLine, GoodField, GoodFields, GoodFirstLine, LineOf, FirstLine, LinesOf;
    if j == 0 {
      FirstIsLine(verb, path, version);
    } else {
      assert HeadLines(verb, path, version, fields)[j] == LinesOf(fields)[j - 1];
      FieldAt(fields, j - 1);
    }
  }

  /** A well-formed request head is made of header lines and announces what its fields announce. */
  lemma HeadParts(verb: string, path: string, version: string, fields: seq<Field>)
    requires GoodFirstLine(verb, path, version) && GoodFields(fields)
    ensures var lines := HeadLines(verb, path, version, fields);
            (forall l: string :: l in lines ==> IsHeaderLine(l)) && BodyLength(lines, 0) == AnnouncedLength(fields)
  {
    hide IsHeaderLine, GoodFields, GoodFirstLine, BodyLength, FirstLine;
    var lines := HeadLines(verb, path, version, fields);
    forall j {:trigger lines[j]} | 0 <= j < |lines| ensures IsHeaderLine(lines[j]) {
      HeadLine(verb, path, version, fields, j);
    }
    FirstLineHasNoLength(verb, path, version);
    HeadLength(FirstLine(verb, path, version), fields);
  }

  lemma FieldAt(fields: seq<Field>, j: nat)
    requires j < |fields| && GoodFields(fields)
    ensures IsHeaderLine(LinesOf(fields)[j])
  {
    hide IsHeaderLine, GoodField, LineOf, LinesOf;
    LinesAt(fields, j);
    assert fields[j] in fields;
    FieldIsLine(fields[j]);
  }

  lemma FieldIsLine(f: Field)
    requires GoodField(f)
    ensures IsHeaderLine(LineOf(f))
  {
    hide IsLine;
  }

  lemma FirstIsLine(verb: string, path: string, version: string)
    requires GoodFirstLine(verb, path, version)
    ensures IsHeaderLine(FirstLine(verb, path, version))
  {
    hide IsLine;
  }

  /** What comes of a request head and some text behind it. */
  ghost function Outcome(verb: string, path: string, fields: seq<Field>, rest: string): Result<HttpRequest, HttpError> {
    match AnnouncedLength(fields)
    case None => Failure(InvalidContentLength)
    case Some(n) =>
      if |rest| < n then Failure(Closed)
      else if fields == [] then Failure(MalformedRequestLine)
      else Success(HttpRequest(verb, path, HeaderMap(fields[..|fields| - 1]), rest[..n]))
  }

  /** Every request head, with any fields and any text behind it, in any chunks within the limit. */
  lemma RequestOutcome(verb: string, path: string, version: string, fields: seq<Field>, rest: string,
      chunks: seq<string>)
    requires GoodFirstLine(verb, path, version) && GoodFields(fields)
    requires Stream(chunks) == WrittenRequest(verb, path, version, fields, rest) &&
             |Stream(chunks)| <= MAX_REQUEST_BYTES
    ensures Receive("", chunks) == Outcome(verb, path, fields, rest)
  {
    hide GoodField, GoodFirstLine, LineOf, FirstLine, BodyLength, ParseRequestLine, HeadersIn, Find, Has,
         IsHeaderLine, Receive, Split, Block, Stream, LengthOf, ToLower, AnnouncedLength;
    var lines := HeadLines(verb, path, version, fields);
    var head, text := Block(lines), Stream(chunks);
    HeadParts(verb, path, version, fields);
    HeaderEnds(lines, rest);
    assert text == head + (BLANK_LINE + rest);
    LinesSplit(lines);
    HeadTake(head, rest);
    InspectText(text);
    if fields == [] {
      ChunkingIndependence(chunks, chunks);
    } else {
      LinesOfFront(fields);
      assert lines[1..|lines| - 1] == LinesOf(fields)[..|fields| - 1];
      assert forall f: Field :: f in fields[..|fields| - 1] ==> f in fields;
      HeadersOfFields(fields[..|fields| - 1]);
      FirstParses(verb, path, version);
      ChunkingIndependence(chunks, chunks);
    }
  }

  /** A request that announces the size of its body, if it has one, arrives as it was written: verb,
      path and body exactly, and the headers but the last, which the reader drops. Neither the cut
      into chunks nor bytes behind the body matter. */
  lemma RequestRoundTrip(verb: string, path: string, version: string, fields: seq<Field>, body: string, more: string,
      chunks: seq<string>)
    requires GoodFirstLine(verb, path, version) && GoodFields(fields)
    requires fields != [] && AnnouncedLength(fields) == Some(|body|)
    requires Stream(chunks) == WrittenRequest(verb, path, version, fields, body) + more &&
             |Stream(chunks)| <= MAX_REQUEST_BYTES
    ensures Receive("", chunks) == Success(HttpRequest(verb, path, HeaderMap(fields[..|fields| - 1]), body))
  {
    hide GoodField, GoodFields, GoodFirstLine, Receive, Block, Stream, AnnouncedLength, HeaderMap, HeadLines;
    var head := Block(HeadLines(verb, path, version, fields));
    assert head + (BLANK_LINE + body) + more == head + (BLANK_LINE + (body + more));
    assert (body + more)[..|body|] == body;
    RequestOutcome(verb, path, version, fields, body + more, chunks);
  }

  lemma FirstParses(verb: string, path: string, version: string)
    requires GoodFirstLine(verb, path, version)
    ensures ParseRequestLine(FirstLine(verb, path, version)) == Some(RequestLine(verb, path))
  {
    hide ParseRequestLine, FirstLine, IsLine;
    FirstLineParses(verb, path, version);
  }

  lemma LinesSplit(lines: seq<string>)
    requires lines != [] && forall l: string :: l in lines ==> IsHeaderLine(l)
    ensures Split(Block(lines)) == lines
  {
    hide IsLine, Split, Block;
    SplitBlock(lines);
  }

  lemma HeadTake(head: string, rest: string)
    ensures var text := head + (BLANK_LINE + rest);
            text[..|head|] == head && |text| == |head| + 4 + |rest| && text[|head| + 4..] == rest
  {
    assert |BLANK_LINE| == 4;
  }

  lemma LinesOfFront(fields: seq<Field>)
    requires fields != []
    ensures LinesOf(fields)[..|fields| - 1] == LinesOf(fields[..|fields| - 1])
  {
    hide LineOf;
    var front := fields[..|fields| - 1];
    LinesOfAppend(front, fields[|fields| - 1..]);
    assert fields == front + fields[|fields| - 1..];
  }

  /** An earlier field has the name and the value of the last one, and none between them that name. */
  ghost predicate RepeatsLast(fields: seq<Field>)
    requires fields != []
  {
    var n := |fields| - 1;
    exists j: nat :: j < n && HoldsLast(fields[..n], j, ToLower(fields[n].name), fields[n].value)
  }

  /** Field `j` is the last one of that name, and has that value. */
  ghost predicate HoldsLast(fields: seq<Field>, j: nat, name: string, value: string) {
    j < |fields| && ToLower(fields[j].name) == name && fields[j].value == value &&
    forall i :: j < i < |fields| ==> ToLower(fields[i].name) != name
  }

  /** The header map holds at a name the value of the last field of that name. */
  lemma {:induction false} HeaderMapMeaning(fields: seq<Field>, name: string, value: string)
    ensures name in HeaderMap(fields) && HeaderMap(fields)[name] == value <==>
            exists j: nat :: HoldsLast(fields, j, name, value)
    decreases |fields|
  {
    hide ToLower;
    if fields == [] {
    } else {
      var n := |fields| - 1;
      HeaderMapMeaning(fields[..n], name, value);
      if ToLower(fields[n].name) == name {
        if fields[n].value == value {
          assert HoldsLast(fields, n, name, value);
        }
      } else {
        forall j: nat | j < n ensures HoldsLast(fields[..n], j, name, value) <==> HoldsLast(fields, j, name, value) {
          assert forall i :: 0 <= i < n ==> fields[..n][i] == fields[i];
        }
      }
    }
  }

  /** All the headers of a request arrive exactly when an earlier field repeats the last one and no
      field between them has its name: otherwise the last field is lost. */
  lemma AllHeadersArrive(verb: string, path: string, version: string, fields: seq<Field>, body: string, more: string,
      chunks: seq<string>)
    requires GoodFirstLine(verb, path, version) && GoodFields(fields)
    requires fields != [] && AnnouncedLength(fields) == Some(|body|)
    requires Stream(chunks) == WrittenRequest(verb, path, version, fields, body) + more &&
             |Stream(chunks)| <= MAX_REQUEST_BYTES
    ensures Receive("", chunks).Success?
    ensures Receive("", chunks).value.headers == HeaderMap(fields) <==> RepeatsLast(fields)
  {
    hide Receive, GoodFirstLine, GoodFields, AnnouncedLength, WrittenRequest, Stream, ToLower, HoldsLast;
    RequestRoundTrip(verb, path, version, fields, body, more, chunks);
    LastUpdate(fields);
    var n := |fields| - 1;
    HeaderMapMeaning(fields[..n], ToLower(fields[n].name), fields[n].value);
    forall j: nat | HoldsLast(fields[..n], j, ToLower(fields[n].name), fields[n].value) ensures j < n {
      HoldsBelow(fields[..n], j, ToLower(fields[n].name), fields[n].value);
    }
  }

  lemma HoldsBelow(fields: seq<Field>, j: nat, name: string, value: string)
    requires HoldsLast(fields, j, name, value)
    ensures j < |fields|
  {
  }

  /** Adding the last field changes nothing exactly when the map already holds it. */
  lemma LastUpdate(fields: seq<Field>)
    requires fields != []
    ensures var front, last := HeaderMap(fields[..|fields| - 1]), fields[|fields| - 1];
            front == HeaderMap(fields) <==> ToLower(last.name) in front && front[ToLower(last.name)] == last.value
  {
    hide ToLower;
    var front, last := HeaderMap(fields[..|fields| - 1]), fields[|fields| - 1];
    assert HeaderMap(fields)[ToLower(last.name)] == last.value;
  }

  /** They do not for a request whose only field is its length: it arrives without headers. */
  lemma LastHeaderIsLost(chunks: seq<string>)
    requires Stream(chunks) == WrittenRequest("POST", "/mcp", "HTTP/1.1", [ZERO_LENGTH], "")
    ensures Receive("", chunks) == Success(HttpRequest("POST", "/mcp", map[], ""))
    ensures HeaderMap([ZERO_LENGTH]) == map["content-length" := "0"]
  {
    hide Receive, Stream, Find, WrittenRequest, AnnouncedLength, GoodFirstLine, GoodFields;
    SmallRequest();
    assert WrittenRequest("POST", "/mcp", "HTTP/1.1", [ZERO_LENGTH], "") + "" ==
           WrittenRequest("POST", "/mcp", "HTTP/1.1", [ZERO_LENGTH], "");
    RequestRoundTrip("POST", "/mcp", "HTTP/1.1", [ZERO_LENGTH], "", "", chunks);
    assert [ZERO_LENGTH][..0] == [];
    LengthName();
  }

  const ZERO_LENGTH := Field("Content-Length", " ", "0", "")

  lemma SmallFirstLine()
    ensures GoodFirstLine("POST", "/mcp", "HTTP/1.1") && FirstLine("POST", "/mcp", "HTTP/1.1") == "POST /mcp HTTP/1.1"
  {
    hide Find, GoodFirstLine;
    NoReturn("POST /mcp HTTP/1.1");
    assert FirstLine("POST", "/mcp", "HTTP/1.1") == "POST /mcp HTTP/1.1";
    OrdinaryFirstLine("POST", "/mcp", "HTTP/1.1");
  }

  lemma SmallField()
    ensures GoodField(ZERO_LENGTH) && LineOf(ZERO_LENGTH) == "Content-Length: 0"
  {
    hide Find;
    NoReturn("Content-Length: 0");
    assert LineOf(ZERO_LENGTH) == "Content-Length: 0";
  }

  lemma SmallRequest()
    ensures GoodFirstLine("POST", "/mcp", "HTTP/1.1") && GoodFields([ZERO_LENGTH])
    ensures AnnouncedLength([ZERO_LENGTH]) == Some(0)
    ensures |WrittenRequest("POST", "/mcp", "HTTP/1.1", [ZERO_LENGTH], "")| <= MAX_REQUEST_BYTES
  {
    hide Find, Trim, DecimalText, DecimalValue, GoodField, GoodFirstLine, LineOf, FirstLine;
    SmallFirstLine();
    SmallField();
    PrintedLength(0);
    ZeroText();
    LengthName();
    OneAnnounced(ZERO_LENGTH);
    OneHeader(ZERO_LENGTH, map[]);
    BlockCons(FirstLine("POST", "/mcp", "HTTP/1.1"), [LineOf(ZERO_LENGTH)]);
  }

  lemma LengthName()
    ensures ToLower("Content-Length") == "content-length"
  {
    assert ToLower("Content-Length") == "content-length";
  }

  lemma OneAnnounced(f: Field)
    requires IsLengthField(f)
    ensures AnnouncedLength([f]) == LengthOf(f.value)
  {
    hide LengthOf, IsLengthField;
    assert [f][..0] == [] && AnnouncedLength([]) == Some(0);
  }

  lemma ZeroText()
    ensures DecimalText(0) == "0"
  {
  }

  lemma NoReturn(s: string)
    requires '\r' !in s
    ensures IsLine(s)
  {
    var q := Find(s, CR_LF, 0);
    if q.Some? {
      HasCrLf(s, q.value);
    }
  }

  // ------------------------------------------------- requests over the limit

  /** A written request ends where its head and the announced length say. */
  lemma WrittenRequestEnd(verb: string, path: string, version: string, fields: seq<Field>, rest: string)
    requires GoodFirstLine(verb, path, version) && GoodFields(fields)
    ensures RequestEnd(WrittenRequest(verb, path, version, fields, rest)) ==
            Some(|Block(HeadLines(verb, path, version, fields))| + 4 +
              (match AnnouncedLength(fields) case Some(n) => n case None => 0))
  {
    hide Find, Has, GoodFields, GoodFirstLine, AnnouncedLength, IsHeaderLine, Split, BodyLength, Block, HeadLines;
    var lines := HeadLines(verb, path, version, fields);
    HeadParts(verb, path, version, fields);
    HeaderEnds(lines, rest);
    LinesSplit(lines);
    HeadTake(Block(lines), rest);
  }

  function Fill(n: nat): (s: string)
    ensures |s| == n && forall i :: 0 <= i < n ==> s[i] == 'x'
  {
    seq(n, _ => 'x')
  }

  ghost function LongField(n: nat): Field {
    Field("a", "", Fill(n), "")
  }

  const LARGE_LENGTH := Field("Content-Length", " ", "2097152", "")

  lemma DecimalStep(s: string, c: char)
    requires AllDigits(s) && '0' <= c <= '9'
    ensures AllDigits(s + [c]) && DecimalValue(s + [c]) == DecimalValue(s) * 10 + (c as int - '0' as int)
  {
    assert (s + [c])[..|s|] == s;
  }

  lemma LargeLength()
    ensures LengthOf("2097152") == Some(MAX_BODY_BYTES)
  {
    hide DecimalValue, Trim;
    TrimExact("", "2097152", "");
    assert "" + "2097152" + "" == "2097152";
    FirstDigits();
    DecimalStep("2097", '1');
    DecimalStep("20971", '5');
    DecimalStep("209715", '2');
    assert "2097" + ['1'] == "20971" && "20971" + ['5'] == "209715" && "209715" + ['2'] == "2097152";
  }

  lemma FirstDigits()
    ensures AllDigits("2097") && DecimalValue("2097") == 2097
  {
    hide DecimalValue;
    NoDigits();
    DecimalStep("", '2');
    DecimalStep("2", '0');
    DecimalStep("20", '9');
    DecimalStep("209", '7');
    assert "" + ['2'] == "2" && "2" + ['0'] == "20" && "20" + ['9'] == "209" && "209" + ['7'] == "2097";
  }

  lemma NoDigits()
    ensures AllDigits("") && DecimalValue("") == 0
  {
  }

  lemma LongFieldIsGood(n: nat)
    ensures GoodField(LongField(n)) && |LineOf(LongField(n))| == n + 2 && !IsLengthField(LongField(n))
  {
    hide Find;
    NoReturn(LineOf(LongField(n)));
    assert ToLower("a") == "a";
  }

  lemma LargeLengthIsGood()
    ensures GoodField(LARGE_LENGTH) && |LineOf(LARGE_LENGTH)| == 23 && IsLengthField(LARGE_LENGTH)
  {
    hide Find;
    NoReturn("Content-Length: 2097152");
    assert LineOf(LARGE_LENGTH) == "Content-Length: 2097152";
    LengthName();
  }

  lemma TwoAnnounced(f: Field, g: Field)
    requires !IsLengthField(f) && IsLengthField(g)
    ensures AnnouncedLength([f, g]) == LengthOf(g.value) && LinesOf([f, g]) == [LineOf(f), LineOf(g)]
  {
    hide LengthOf, IsLengthField, LineOf;
    assert [f, g][..1] == [f] && [f][..0] == [] && [f, g][1..] == [g] && [g][1..] == [];
    assert AnnouncedLength([]) == Some(0) && AnnouncedLength([f]) == Some(0);
    assert LinesOf([g]) == [LineOf(g)];
  }

  /** There are such streams: with 64 KiB of header and 2 MiB of body a request ends just at the
      limit, and one byte more makes its outcome a matter of chunks. */
  lemma SomeCutsMatter() returns (stream: string)
    ensures |stream| > MAX_REQUEST_BYTES && !Independent(stream)
  {
    hide Independent, GoodFirstLine, GoodField, AnnouncedLength, IsLengthField, LengthOf, LineOf, LinesOf, FirstLine,
         Fill,
         RequestEnd;
    var fields := [LongField(65489), LARGE_LENGTH];
    SmallFirstLine();
    LongFieldIsGood(65489);
    LargeLengthIsGood();
    LargeLength();
    TwoAnnounced(LongField(65489), LARGE_LENGTH);
    var first := FirstLine("POST", "/mcp", "HTTP/1.1");
    var lines := HeadLines("POST", "/mcp", "HTTP/1.1", fields);
    assert lines == [first, LineOf(LongField(65489)), LineOf(LARGE_LENGTH)];
    ThreeLinesLong(first, LineOf(LongField(65489)), LineOf(LARGE_LENGTH));
    stream := WrittenRequest("POST", "/mcp", "HTTP/1.1", fields, Fill(MAX_BODY_BYTES + 1));
    WrittenRequestEnd("POST", "/mcp", "HTTP/1.1", fields, Fill(MAX_BODY_BYTES + 1));
    IndependentAboveLimit(stream);
  }

  lemma ThreeLinesLong(a: string, b: string, c: string)
    ensures |Block([a, b, c])| == |a| + |b| + |c| + 4
  {
    BlockCons(a, [b, c]);
    BlockCons(b, [c]);
  }

  // -------------------------------------------------------------- response

  lemma NoReturnConcat(a: string, b: string)
    requires '\r' !in a && '\r' !in b
    ensures '\r' !in a + b
  {
  }

  lemma DecimalNoReturn(n: int)
    ensures '\r' !in DecimalText(n) && ':' !in DecimalText(n)
  {
  }

  lemma StatusNoReturn(status: int)
    ensures '\r' !in StatusText(status) && ':' !in StatusText(status)
  {
    assert '\r' !in "OK" && '\r' !in "Accepted" && '\r' !in "Bad Request" && '\r' !in "Forbidden" &&
           '\r' !in "Not Found";
    assert '\r' !in "Method Not Allowed" && '\r' !in "Internal Server Error" && '\r' !in "Error";
    StatusNoColon(status);
  }

  lemma StatusNoColon(status: int)
    ensures ':' !in StatusText(status)
  {
    assert ':' !in "OK" && ':' !in "Accepted" && ':' !in "Bad Request" && ':' !in "Forbidden" && ':' !in "Not Found";
    assert ':' !in "Method Not Allowed" && ':' !in "Internal Server Error" && ':' !in "Error";
  }

  /** The lines of an answer hold no line end of their own, given that the content type has none. */
  lemma ResponseLinesAreLines(r: HttpResponse)
    requires '\r' !in r.contentType
    ensures forall l: string :: l in ResponseLines(r) ==> IsHeaderLine(l)
  {
    hide IsLine, DecimalText, StatusText;
    var d := DecimalText(r.status);
    DecimalNoReturn(r.status);
    DecimalNoReturn(|r.body|);
    StatusNoReturn(r.status);
    assert '\r' !in "HTTP/1.1 " && '\r' !in " " && '\r' !in "Content-Type: " && '\r' !in "Content-Length: ";
    NoReturnConcat(" ", StatusText(r.status));
    NoReturnConcat(d, " " + StatusText(r.status));
    NoReturnConcat("HTTP/1.1 ", d + (" " + StatusText(r.status)));
    var kind := if r.contentType == "" then JSON_CONTENT_TYPE else r.contentType;
    assert '\r' !in JSON_CONTENT_TYPE && '\r' !in "Connection: close" && '\r' !in "Content-Length: 0";
    NoReturnConcat("Content-Type: ", kind);
    NoReturnConcat("Content-Length: ", DecimalText(|r.body|));
    forall l: string | l in ResponseLines(r) ensures IsHeaderLine(l) {
      NoReturn(l);
    }
  }

  lemma LineNamed(name: string, value: string)
    requires ':' !in name && Trimmed(name) && ToLower(name) != "content-length"
    ensures LengthIn(name + (":" + value)) == NoLength
  {
    hide Find, Trim, LengthOf;
    var line := name + (":" + value);
    FindBehind(name, ':', value);
    assert line[..|name|] == name;
    TrimExact("", name, "");
    assert "" + name + "" == name;
  }

  lemma LengthLine(n: nat)
    ensures LengthIn("Content-Length: " + DecimalText(n)) == if n <= MAX_BODY_BYTES then Length(n) else BadLength
  {
    hide Find, Trim, LengthOf, DecimalText, GoodField, LineOf, ToLower;
    var f := LengthFieldOf(n);
    PrintedLength(n);
    FieldLength(f);
  }

  /** What each line of an answer says about its length. */
  lemma ResponseLengths(r: HttpResponse)
    ensures BodyLength(ResponseLines(r), 0) ==
            if |ShownBody(r)| <= MAX_BODY_BYTES then Some(|ShownBody(r)|) else None
  {
    hide LengthIn, Find, DecimalText, StatusText, BodyLength;
    var kind := if r.contentType == "" then JSON_CONTENT_TYPE else r.contentType;
    var lines := ResponseLines(r);
    StatusLine(r.status);
    assert ToLower("Connection") == "connection" && ToLower("Content-Type") == "content-type";
    LineNamed("Connection", " close");
    assert "Connection" + (":" + " close") == "Connection: close";
    LineNamed("Content-Type", " " + kind);
    assert "Content-Type" + (":" + (" " + kind)) == "Content-Type: " + kind;
    LengthLine(|ShownBody(r)|);
    ZeroText();
    assert "Content-Length: " + "0" == "Content-Length: 0";
    ResponseFold(lines, |ShownBody(r)|);
  }

  lemma StatusLine(status: int)
    ensures LengthIn("HTTP/1.1 " + (DecimalText(status) + (" " + StatusText(status)))) == NoLength
  {
    hide Find, DecimalText, StatusText;
    DecimalNoReturn(status);
    StatusNoReturn(status);
    var line := "HTTP/1.1 " + (DecimalText(status) + (" " + StatusText(status)));
    FindByte(line, ':');
    assert ':' !in "HTTP/1.1 " && ':' !in " ";
  }

  lemma ResponseFold(lines: seq<string>, n: nat)
    requires |lines| >= 1 && forall j :: 0 <= j < |lines| - 1 ==> LengthIn(lines[j]) == NoLength
    requires LengthIn(lines[|lines| - 1]) == if n <= MAX_BODY_BYTES then Length(n) else BadLength
    ensures BodyLength(lines, 0) == if n <= MAX_BODY_BYTES then Some(n) else None
  {
    hide LengthIn, BodyLength;
    if n <= MAX_BODY_BYTES {
      OneLength(lines, |lines| - 1, n);
    } else {
      BodyLengthMeaning(lines, 0);
      assert lines[|lines| - 1] in lines;
    }
  }

  /** An answer splits at its first blank line into its lines and exactly its body, and the length
      it announces reads back as the size of that body, up to the reader's bound. */
  lemma ResponseRoundTrip(r: HttpResponse, text: string)
    requires '\r' !in r.contentType && text == WireText(r)
    ensures var e := Find(text, BLANK_LINE, 0);
            e.Some? && Split(text[..e.value]) == ResponseLines(r) && text[e.value + 4..] == ShownBody(r) &&
            BodyLength(Split(text[..e.value]), 0) == if |ShownBody(r)| <= MAX_BODY_BYTES then Some(|ShownBody(r)|)
              else None
  {
    hide Find, Has, Split, Block, ResponseLines, BodyLength, IsHeaderLine;
    var lines := ResponseLines(r);
    ResponseLinesAreLines(r);
    ResponseNotEmpty(r);
    HeaderEnds(lines, ShownBody(r));
    LinesSplit(lines);
    HeadTake(Block(lines), ShownBody(r));
    ResponseLengths(r);
  }

  lemma ResponseNotEmpty(r: HttpResponse)
    ensures ResponseLines(r) != []
  {
  }

  /** The reason phrases of the statuses the program uses. */
  const PHRASES := map[200 := "OK", 202 := "Accepted", 400 := "Bad Request", 403 := "Forbidden", 404 := "Not Found",
                       405 := "Method Not Allowed", 500 := "Internal Server Error"]

  /** A status line: the protocol, a number worth the status, and the phrase for it. */
  ghost predicate IsStatusLine(line: string, status: int) {
    exists number: string :: IsNumeral(number, status) &&
      line == "HTTP/1.1 " + (number + (" " + (if status in PHRASES then PHRASES[status] else "Error")))
  }

  /** The header map of a response: the connection ends with it, its body has that length, and if it
      has one, that type. */
  ghost predicate AreResponseHeaders(headers: map<string, string>, r: HttpResponse) {
    headers.Keys == (if r.hasBody then {"connection", "content-type", "content-length"}
                     else {"connection", "content-length"}) &&
    headers["connection"] == "close" && IsNumeral(headers["content-length"], if r.hasBody then |r.body| else 0) &&
    (r.hasBody ==>
      headers["content-type"] == Trim(if r.contentType == "" then "application/json; charset=utf-8" else r.contentType))
  }

  /** A text is the message of a response: up to its first blank line stand the status line and the
      headers, behind it the body. */
  ghost predicate IsMessage(text: string, r: HttpResponse) {
    var e := Find(text, BLANK_LINE, 0);
    e.Some? && text[e.value + 4..] == (if r.hasBody then r.body else "") &&
    var lines := Split(text[..e.value]);
    IsStatusLine(lines[0], r.status) &&
    var headers := HeadersIn(lines[1..], map[]);
    headers.Some? && AreResponseHeaders(headers.value, r)
  }

  lemma StatusLineReads(r: HttpResponse)
    ensures IsStatusLine(ResponseLines(r)[0], r.status)
  {
    hide IsNumeral, DecimalText;
    NumeralText(r.status);
    PhraseOf(r.status);
  }

  lemma PhraseOf(status: int)
    ensures StatusText(status) == if status in PHRASES then PHRASES[status] else "Error"
  {
  }

  /** The lines behind the status line, as fields. */
  lemma ResponseFields(r: HttpResponse) returns (fields: seq<Field>)
    requires '\r' !in r.contentType
    ensures GoodFields(fields) && LinesOf(fields) == ResponseLines(r)[1..]
    ensures HeaderMap(fields) ==
            if r.hasBody
            then map["connection" := "close",
                     "content-type" := Trim(if r.contentType == "" then JSON_CONTENT_TYPE else r.contentType),
                     "content-length" := DecimalText(|r.body|)]
            else map["connection" := "close", "content-length" := "0"]
  {
    hide DecimalText, StatusText, Trim, GoodField, LineOf, ToLower, LinesOf, HeaderMap;
    var close := ConnectionField();
    if r.hasBody {
      var kind := TypeField(if r.contentType == "" then JSON_CONTENT_TYPE else r.contentType);
      var length := LengthFieldOf(|r.body|);
      ThreeFields(close, kind, length);
      fields := [close, kind, length];
      assert ResponseLines(r)[1..] == [LineOf(close), LineOf(kind), LineOf(length)];
    } else {
      var length := LengthFieldOf(0);
      ZeroText();
      TwoFields(close, length);
      fields := [close, length];
      assert "Content-Length: " + "0" == "Content-Length: 0";
      assert ResponseLines(r)[1..] == [LineOf(close), LineOf(length)];
    }
  }

  lemma TwoFields(f: Field, g: Field)
    ensures LinesOf([f, g]) == [LineOf(f), LineOf(g)]
    ensures HeaderMap([f, g]) == map[][ToLower(f.name) := f.value][ToLower(g.name) := g.value]
  {
    hide LineOf, ToLower;
    assert [f, g][1..] == [g] && [g][1..] == [] && [f, g][..1] == [f] && [f][..0] == [];
    assert LinesOf([g]) == [LineOf(g)];
    assert HeaderMap([f]) == map[][ToLower(f.name) := f.value];
  }

  lemma ThreeFields(f: Field, g: Field, h: Field)
    ensures LinesOf([f, g, h]) == [LineOf(f), LineOf(g), LineOf(h)]
    ensures HeaderMap([f, g, h]) ==
            map[][ToLower(f.name) := f.value][ToLower(g.name) := g.value][ToLower(h.name) := h.value]
  {
    hide LineOf, ToLower;
    TwoFields(f, g);
    TwoFields(g, h);
    assert [f, g, h][1..] == [g, h] && [f, g, h][..2] == [f, g];
  }

  lemma ConnectionField() returns (f: Field)
    ensures GoodField(f) && LineOf(f) == "Connection: close" && ToLower(f.name) == "connection" && f.value == "close"
  {
    hide Find;
    f := Field("Connection", " ", "close", "");
    NoReturn("Connection: close");
    assert LineOf(f) == "Connection: close";
    assert ToLower("Connection") == "connection";
  }

  lemma TypeField(kind: string) returns (f: Field)
    requires '\r' !in kind
    ensures GoodField(f) && LineOf(f) == "Content-Type: " + kind && ToLower(f.name) == "content-type" &&
            f.value == Trim(kind)
  {
    hide Find, Trim, IsLine, SkipWs;
    TrimSplits(kind);
    var b := SkipWs(kind, 0);
    var e := b + |Trim(kind)|;
    f := Field("Content-Type", " " + kind[..b], Trim(kind), kind[e..]);
    assert '\r' !in "Content-Type: ";
    NoReturnConcat("Content-Type: ", kind);
    NoReturn("Content-Type: " + kind);
    FieldPieces(kind[..b], Trim(kind), kind[e..]);
    TypeName();
  }

  lemma FieldPieces(lead: string, value: string, trail: string)
    ensures "Content-Type" + (":" + ((" " + lead) + (value + trail))) == "Content-Type: " + (lead + value + trail)
  {
    assert "Content-Type" + (":" + " ") == "Content-Type: ";
  }

  lemma TypeName()
    ensures ToLower("Content-Type") == "content-type" && ':' !in "Content-Type" && Trimmed("Content-Type")
  {
    assert ToLower("Content-Type") == "content-type";
  }

  lemma LengthFieldOf(n: nat) returns (f: Field)
    ensures GoodField(f) && LineOf(f) == "Content-Length: " + DecimalText(n) && ToLower(f.name) == "content-length" &&
            f.value == DecimalText(n)
  {
    hide Find, Trim, DecimalText, IsLine;
    f := Field("Content-Length", " ", DecimalText(n), "");
    PrintedLength(n);
    DecimalNoReturn(n);
    assert '\r' !in "Content-Length: ";
    NoReturnConcat("Content-Length: ", DecimalText(n));
    NoReturn("Content-Length: " + DecimalText(n));
    assert LineOf(f) == "Content-Length: " + DecimalText(n);
    LengthName();
  }

  /** The text of any response is its message: a client reads off it the status, the headers and the
      body, exactly. */
  lemma ResponseReadsBack(r: HttpResponse)
    requires '\r' !in r.contentType
    ensures IsMessage(WireText(r), r)
  {
    hide Find, Split, WireText, BodyLength, HeadersIn, IsStatusLine, Trim, DecimalText, IsNumeral, ResponseLines,
         HeaderMap, GoodFields;
    ResponseRoundTrip(r, WireText(r));
    ResponseNotEmpty(r);
    StatusLineReads(r);
    var fields := ResponseFields(r);
    HeadersOfFields(fields);
    NumeralText(|r.body|);
    NumeralText(0);
    ZeroText();
  }
}

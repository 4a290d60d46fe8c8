/** The position-advancing loops of the scanner, the decoder, the extractor and the printer,
    each proved to compute its function from `JsonReader`, `JsonFields` or `JsonStrings`. */
module JsonScanner {
  import opened Bytes
  import opened JsonGrammar
  import opened JsonReader
  import opened JsonFields
  import opened JsonStrings

  /** From `pos` to `end` stand none but the six blank bytes, and at `end` stands none of them. */
  ghost predicate BlanksEnd(t: string, pos: nat, end: nat) {
    pos <= end <= |t| && (forall i :: pos <= i < end ==> t[i] as int in {9, 10, 11, 12, 13, 32}) &&
    (end < |t| ==> t[end] as int !in {9, 10, 11, 12, 13, 32})
  }

  method SkipWhitespace(t: string, pos: nat) returns (end: nat)
    requires pos <= |t|
    ensures end == SkipWs(t, pos)
    ensures BlanksEnd(t, pos, end)
  {
    end := pos;
    while end < |t| && IsSpace(t[end])
      invariant pos <= end <= |t| && SkipWs(t, end) == SkipWs(t, pos)
    {
      end := end + 1;
    }
  }

  method AppendUtf8(codePoint: nat, out: string) returns (r: string)
    requires codePoint <= 0x10FFFF
    ensures r == out + Utf8(codePoint)
  {
    if codePoint <= 0x7F {
      return out + [Byte(codePoint)];
    }
    if codePoint <= 0x7FF {
      r := out + [Byte(0xC0 + codePoint / 64)];
      r := r + [Byte(0x80 + codePoint % 64)];
      return;
    }
    if codePoint <= 0xFFFF {
      r := out + [Byte(0xE0 + codePoint / 4096)];
      r := r + [Byte(0x80 + codePoint / 64 % 64)];
      r := r + [Byte(0x80 + codePoint % 64)];
      return;
    }
    r := out + [Byte(0xF0 + codePoint / 262144)];
    r := r + [Byte(0x80 + codePoint / 4096 % 64)];
    r := r + [Byte(0x80 + codePoint / 64 % 64)];
    r := r + [Byte(0x80 + codePoint % 64)];
  }

  /** The four digits of a `\u` escape, read most significant first. */
  method ParseHexDigits(digits: string) returns (ok: bool, value: nat)
    requires |digits| == 4
    ensures ok <==> IsHexDigit(digits[0]) && IsHexDigit(digits[1]) && IsHexDigit(digits[2]) && IsHexDigit(digits[3])
    ensures ok ==> value == HexValue(digits[0], digits[1], digits[2], digits[3])
  {
    value := 0;
    var i := 0;
    while i < 4
      invariant 0 <= i <= 4
      invariant forall j :: 0 <= j < i ==> IsHexDigit(digits[j])
      invariant i == 0 ==> value == 0
      invariant i == 1 ==> value == HexDigitValue(digits[0])
      invariant i == 2 ==> value == HexDigitValue(digits[0]) * 16 + HexDigitValue(digits[1])
      invariant i == 3 ==>
                  value == (HexDigitValue(digits[0]) * 16 + HexDigitValue(digits[1])) * 16 + HexDigitValue(digits[2])
      invariant i == 4 ==> value == HexValue(digits[0], digits[1], digits[2], digits[3])
    {
      if !IsHexDigit(digits[i]) {
        return false, value;
      }
      value := value * 16 + HexDigitValue(digits[i]);
      i := i + 1;
    }
    ok := true;
  }

  /** Reading from `p` on, with `out` decoded so far, is reading from `start` on. */
  ghost predicate StringGoesOn(t: string, start: nat, p: nat, out: string)
    requires start <= p <= |t|
  {
    match (ReadPieces(t, start), ReadPieces(t, p))
    case (Ok(all, e1), Ok(rest, e2)) => e1 == e2 && Decode(all) == out + Decode(rest)
    case (Err(m1), Err(m2)) => m1 == m2
    case _ => false
  }

  lemma StringStep(t: string, start: nat, p: nat, q: nat, out: string, x: Piece)
    requires start <= p < q <= |t| && StringGoesOn(t, start, p, out) && WFPiece(x)
    requires ReadPieces(t, p) == Prepend(x, ReadPieces(t, q))
    ensures StringGoesOn(t, start, q, out + DecodePiece(x))
  {
    hide DecodePiece, ReadEscape;
    if ReadPieces(t, q).Ok? {
      var rest := ReadPieces(t, q).value;
      assert ReadPieces(t, p).value[1..] == rest;
      assert out + (DecodePiece(x) + Decode(rest)) == out + DecodePiece(x) + Decode(rest);
    }
  }

  method ParseJsonString(t: string, pos: nat) returns (ok: bool, end: nat, out: string, error: ScanError)
    requires pos <= |t|
    ensures match ReadString(t, pos)
            case Ok(pieces, e) => ok && end == e && out == Decode(pieces)
            case Err(m) => !ok && error == m
  {
    hide RenderPieces, Utf8, HexValue, WFPieces, Decode, ReadPieces, ReadEscape, StringGoesOn;
    ok, end, out, error := false, pos, "", UnterminatedString;
    if pos >= |t| || t[pos] != '"' {
      error := ExpectedString;
      return;
    }
    end := pos + 1;
    StringStarts(t, pos + 1);
    while end < |t|
      invariant pos + 1 <= end <= |t| && !ok
      invariant StringGoesOn(t, pos + 1, end, out)
    {
      var start := end;
      PiecesOutcome(t, start);
      StringStops(t, pos + 1, start, out);
      var ch := t[end];
      end := end + 1;
      if ch == '"' {
        ok := true;
        return;
      }
      if ch == '\\' {
        EscapeOutcome(t, end);
        if end >= |t| {
          error := UnterminatedEscape;
          return;
        }
        var escaped := t[end];
        end := end + 1;
        if IsShort(escaped) {
          StringStep(t, pos + 1, start, end, out, Short(escaped));
          out := out + [ShortMeaning(escaped)];
        } else if escaped == 'u' {
          if end + 4 > |t| {
            error := InvalidUnicodeEscape;
            return;
          }
          var hexOk, value := ParseHexDigits(t[end..end + 4]);
          if !hexOk {
            error := InvalidUnicodeEscape;
            return;
          }
          var x := Hex(t[end], t[end + 1], t[end + 2], t[end + 3]);
          end := end + 4;
          StringStep(t, pos + 1, start, end, out, x);
          out := AppendUtf8(value, out);
        } else {
          error := UnsupportedEscape;
          return;
        }
        continue;
      }
      if ch as int < 0x20 {
        error := ControlCharacter;
        return;
      }
      StringStep(t, pos + 1, start, end, out, Plain(ch));
      out := out + [ch];
    }
    PiecesOutcome(t, end);
    StringStops(t, pos + 1, end, out);
    error := UnterminatedString;
  }

  lemma StringStarts(t: string, p: nat)
    requires p <= |t|
    ensures StringGoesOn(t, p, p, "")
  {
    hide ReadPieces;
    if ReadPieces(t, p).Ok? {
      assert "" + Decode(ReadPieces(t, p).value) == Decode(ReadPieces(t, p).value);
    }
  }

  /** How a turn of the string loop ends, case by case. */
  lemma PiecesOutcome(t: string, p: nat)
    requires p <= |t|
    ensures var all := ReadPieces(t, p);
            if p == |t| then all == Err(UnterminatedString)
            else if t[p] == '"' then all == Ok([], p + 1)
            else if t[p] == '\\' then
              var r := ReadEscape(t, p + 1);
              all == if r.Err? then Err(r.error) else Prepend(r.value, ReadPieces(t, r.end))
            else if t[p] as int < 0x20 then all == Err(ControlCharacter)
            else all == Prepend(Plain(t[p]), ReadPieces(t, p + 1))
  {
    hide ReadEscape;
  }

  lemma EscapeOutcome(t: string, p: nat)
    requires p <= |t|
    ensures var r := ReadEscape(t, p);
            if p == |t| then r == Err(UnterminatedEscape)
            else if IsShort(t[p]) then r == Ok(Short(t[p]), p + 1)
            else if t[p] != 'u' then r == Err(UnsupportedEscape)
            else if p + 5 <= |t| && IsHexDigit(t[p + 1]) && IsHexDigit(t[p + 2]) && IsHexDigit(t[p + 3]) &&
                 IsHexDigit(t[p + 4])
            then r == Ok(Hex(t[p + 1], t[p + 2], t[p + 3], t[p + 4]), p + 5)
            else r == Err(InvalidUnicodeEscape)
  {
  }

  /** Where the rest of a string is decided at once, the whole string is. */
  lemma StringStops(t: string, start: nat, p: nat, out: string)
    requires start <= p <= |t| && StringGoesOn(t, start, p, out)
    ensures ReadPieces(t, p).Err? ==> ReadPieces(t, start) == Err(ReadPieces(t, p).error)
    ensures ReadPieces(t, p).Ok? && ReadPieces(t, p).value == [] ==>
              ReadPieces(t, start).Ok? && ReadPieces(t, start).end == ReadPieces(t, p).end &&
                Decode(ReadPieces(t, start).value) == out
  {
    hide ReadPieces;
  }

  /** A skipper's outcome against what the reader says: same verdict, same end, same message. */
  ghost predicate Skips<T>(r: Scan<T>, ok: bool, end: nat, error: ScanError) {
    match r
    case Ok(_, e) => ok && end == e
    case Err(m) => !ok && error == m
  }

  ghost predicate SameSkip<T>(r1: Scan<T>, r2: Scan<T>) {
    match (r1, r2)
    case (Ok(_, e1), Ok(_, e2)) => e1 == e2
    case (Err(m1), Err(m2)) => m1 == m2
    case _ => false
  }

  method SkipJsonValue(t: string, pos: nat) returns (ok: bool, end: nat, error: ScanError)
    requires pos <= |t|
    ensures Skips(ReadValue(t, SkipWs(t, pos)), ok, end, error)
    decreases |t| - pos, 2
  {
    hide SkipWs, ReadObject, ReadArray, ReadString;
    ok, error := false, ExpectedValue;
    end := SkipWhitespace(t, pos);
    if end >= |t| {
      error := ExpectedValue;
      return;
    }
    var ch := t[end];
    if ch == '{' {
      ok, end, error := SkipJsonObject(t, end);
      return;
    }
    if ch == '[' {
      ok, end, error := SkipJsonArray(t, end);
      return;
    }
    if ch == '"' {
      var unused;
      ok, end, unused, error := ParseJsonString(t, end);
      return;
    }
    var valueStart := end;
    while end < |t|
      invariant valueStart <= end <= |t| && RunEnd(t, end) == RunEnd(t, valueStart)
    {
      var current := t[end];
      if current == ',' || current == '}' || current == ']' || IsSpace(current) {
        break;
      }
      end := end + 1;
    }
    if end == valueStart {
      error := ExpectedValue;
      return;
    }
    ok := true;
  }

  method SkipJsonArray(t: string, pos: nat) returns (ok: bool, end: nat, error: ScanError)
    requires pos <= |t|
    ensures if pos < |t| && t[pos] == '[' then Skips(ReadArray(t, pos), ok, end, error)
            else !ok && error == ExpectedArray
    decreases |t| - pos, 1
  {
    hide SkipWs, ReadValue, ReadElements;
    ok, end, error := false, pos, UnterminatedArray;
    if pos >= |t| || t[pos] != '[' {
      error := ExpectedArray;
      return;
    }
    end := SkipWhitespace(t, end + 1);
    if end < |t| && t[end] == ']' {
      end, ok := end + 1, true;
      return;
    }
    ghost var first := end;
    while end < |t|
      invariant pos < first <= end <= |t| && !ok
      invariant end < |t| ==> !IsSpace(t[end])
      invariant SameSkip(ReadElements(t, first), ReadElements(t, end))
    {
      ElementsOutcome(t, end);
      var valueOk;
      valueOk, end, error := SkipJsonValue(t, end);
      if !valueOk {
        return;
      }
      end := SkipWhitespace(t, end);
      if end >= |t| {
        error := UnterminatedArray;
        return;
      }
      if t[end] == ',' {
        end := SkipWhitespace(t, end + 1);
        continue;
      }
      if t[end] == ']' {
        end, ok := end + 1, true;
        return;
      }
      error := ExpectedCommaOrBracket;
      return;
    }
    ElementsOutcome(t, end);
    error := UnterminatedArray;
  }

  method SkipJsonObject(t: string, pos: nat) returns (ok: bool, end: nat, error: ScanError)
    requires pos <= |t|
    ensures if pos < |t| && t[pos] == '{' then Skips(ReadObject(t, pos, false), ok, end, error)
            else !ok && error == ExpectedObject
    decreases |t| - pos, 1
  {
    hide SkipWs, ReadField, ReadMembers;
    ok, end, error := false, pos, UnterminatedObject;
    if pos >= |t| || t[pos] != '{' {
      error := ExpectedObject;
      return;
    }
    end := SkipWhitespace(t, end + 1);
    if end < |t| && t[end] == '}' {
      end, ok := end + 1, true;
      return;
    }
    ghost var first := end;
    while end < |t|
      invariant pos < first <= end <= |t| && !ok
      invariant SameSkip(ReadMembers(t, first, false), ReadMembers(t, end, false))
    {
      MembersOutcome(t, end, false);
      var fieldOk;
      fieldOk, end, error := SkipField(t, end);
      if !fieldOk {
        return;
      }
      if end >= |t| {
        error := UnterminatedObject;
        return;
      }
      if t[end] == ',' {
        end := SkipWhitespace(t, end + 1);
        continue;
      }
      if t[end] == '}' {
        end, ok := end + 1, true;
        return;
      }
      error := ExpectedCommaOrBrace;
      return;
    }
    MembersOutcome(t, end, false);
    error := UnterminatedObject;
  }

  /** The part of the member loop up to the comma or brace: key, colon, value. */
  method SkipField(t: string, pos: nat) returns (ok: bool, end: nat, error: ScanError)
    requires pos <= |t|
    ensures Skips(ReadField(t, pos, false), ok, end, error)
    decreases |t| - pos, 0
  {
    hide SkipWs, ReadValue, ReadString;
    var key;
    ok, end, key, error := ParseJsonString(t, pos);
    if !ok {
      return;
    }
    end := SkipWhitespace(t, end);
    if end >= |t| || t[end] != ':' {
      ok, error := false, ExpectedColon;
      return;
    }
    end := SkipWhitespace(t, end + 1);
    assert SkipWs(t, end) == end;
    ok, end, error := SkipJsonValue(t, end);
    if ok {
      end := SkipWhitespace(t, end);
    }
  }

  /** What extraction comes to from the key at `p` on, with `fields` assigned so far. */
  ghost function Remaining(t: string, p: nat, fields: FieldMap): Result<FieldMap, ScanError>
    requires p <= |t|
  {
    match ReadMembers(t, p, true)
    case Err(m) => Failure(m)
    case Ok(members, end) =>
      ReadMembersSound(t, p, true);
      if SkipWs(t, end) == |t| then Success(Bind(fields, members)) else Failure(TrailingContent)
  }

  /** The part of the extractor's loop up to the comma or brace: the key and the verbatim value. */
  method ParseField(t: string, pos: nat) returns (ok: bool, end: nat, key: string, raw: string, error: ScanError)
    requires pos <= |t|
    ensures match ReadField(t, pos, true)
            case Ok(m, e) => ok && end == e && key == Decode(m.key) && raw == Render(m.value)
            case Err(m) => !ok && error == m
  {
    hide SkipWs, ReadValue, ReadString, Decode, Render, WFPieces;
    raw := "";
    ok, end, key, error := ParseJsonString(t, pos);
    if !ok {
      return;
    }
    end := SkipWhitespace(t, end);
    if end >= |t| || t[end] != ':' {
      ok, error := false, ExpectedTopColon;
      return;
    }
    end := SkipWhitespace(t, end + 1);
    assert SkipWs(t, end) == end;
    var valueStart := end;
    ok, end, error := SkipJsonValue(t, end);
    if ok {
      ValueText(t, valueStart);
      raw := t[valueStart..end];
      end := SkipWhitespace(t, end);
    }
  }

  /** The tree of a whole text, case by case. */
  lemma TopOutcome(t: string)
    ensures var p := SkipWs(t, 0);
            if p == |t| || t[p] != '{' then Top(t) == Failure(NotAnObject)
            else
              var b := SkipWs(t, p + 1);
              if b < |t| && t[b] == '}' then
                Top(t) == (if SkipWs(t, b + 1) == |t| then Success(Obj(t[p + 1..b], [])) else Failure(TrailingContent))
              else
                var r := ReadMembers(t, b, true);
                if r.Err? then Top(t) == Failure(r.error)
                else Top(t) == (if SkipWs(t, r.end) == |t| then Success(Obj(t[p + 1..b], r.value))
                     else Failure(TrailingContent))
  {
    hide SkipWs, ReadMembers;
  }

  /** What extraction yields, case by case. */
  lemma FieldsOutcome(t: string)
    ensures var p := SkipWs(t, 0);
            if p == |t| || t[p] != '{' then Fields(t) == Failure(NotAnObject)
            else
              var b := SkipWs(t, p + 1);
              if b < |t| && t[b] == '}' then
                Fields(t) == (if SkipWs(t, b + 1) == |t| then Success(map[]) else Failure(TrailingContent))
              else
                Fields(t) == Remaining(t, b, map[])
  {
    hide SkipWs, ReadMembers, Bind, WFMembers, Top, ObjectText;
    TopOutcome(t);
    BindNothing(map[]);
  }

  method ParseObjectFields(t: string) returns (ok: bool, fields: FieldMap, error: ScanError)
    ensures match Fields(t)
            case Success(m) => ok && fields == m
            case Failure(m) => !ok && error == m
  {
    hide SkipWs, ReadField, Decode, Render, Fields, Remaining, BlanksEnd;
    FieldsOutcome(t);
    ok, fields, error := false, map[], UnterminatedObject;
    var pos := SkipWhitespace(t, 0);
    if pos >= |t| || t[pos] != '{' {
      error := NotAnObject;
      return;
    }
    pos := SkipWhitespace(t, pos + 1);
    if pos < |t| && t[pos] == '}' {
      pos := SkipWhitespace(t, pos + 1);
      if pos != |t| {
        error := TrailingContent;
        return;
      }
      ok := true;
      return;
    }
    while pos < |t|
      invariant 0 <= pos <= |t| && !ok
      invariant Fields(t) == Remaining(t, pos, fields)
    {
      RemainingTurn(t, pos, fields);
      var fieldOk, key, raw;
      fieldOk, pos, key, raw, error := ParseField(t, pos);
      if !fieldOk {
        return;
      }
      fields := fields[key := raw];
      if pos >= |t| {
        error := UnterminatedObject;
        return;
      }
      if t[pos] == ',' {
        pos := SkipWhitespace(t, pos + 1);
        continue;
      }
      if t[pos] == '}' {
        pos := SkipWhitespace(t, pos + 1);
        if pos != |t| {
          error := TrailingContent;
          return;
        }
        ok := true;
        return;
      }
      error := ExpectedTopCommaOrBrace;
      return;
    }
    RemainingTurn(t, pos, fields);
    error := UnterminatedObject;
  }

  lemma ValueText(t: string, s: nat)
    requires s <= |t| && ReadValue(t, s).Ok?
    ensures t[s..ReadValue(t, s).end] == Render(ReadValue(t, s).value)
  {
    ReadValueSound(t, s);
    HasSlice(t, s, Render(ReadValue(t, s).value));
  }

  /** How a turn of the element loop ends, case by case. */
  lemma ElementsOutcome(t: string, p: nat)
    requires p <= |t|
    ensures p < |t| && !IsSpace(t[p]) ==> SkipWs(t, p) == p
    ensures var all := ReadElements(t, p);
            if p == |t| then all == Err(UnterminatedArray)
            else
              var r := ReadValue(t, p);
              if r.Err? then all == Err(r.error)
              else
                var a := SkipWs(t, r.end);
                if a == |t| then all == Err(UnterminatedArray)
                else if t[a] == ',' then SameSkip(all, ReadElements(t, SkipWs(t, a + 1)))
                else if t[a] == ']' then all.Ok? && all.end == a + 1
                else all == Err(ExpectedCommaOrBracket)
  {
    hide ReadValue;
  }

  /** How a turn of the member loop ends, case by case. */
  lemma MembersOutcome(t: string, p: nat, top: bool)
    requires p <= |t|
    ensures var r := ReadField(t, p, top); var all := ReadMembers(t, p, top);
            if p == |t| then all == Err(UnterminatedObject)
            else if r.Err? then all == Err(r.error)
            else if r.end == |t| then all == Err(UnterminatedObject)
            else if t[r.end] == ',' then SameSkip(all, ReadMembers(t, SkipWs(t, r.end + 1), top))
            else if t[r.end] == '}' then all == Ok([r.value], r.end + 1)
            else all == Err(if top then ExpectedTopCommaOrBrace else ExpectedCommaOrBrace)
  {
    hide ReadField, SkipWs;
  }

  lemma BindCons(fields: FieldMap, m: Member, ms: seq<Member>)
    requires WFMembers([m] + ms) && WFMembers(ms) && WFPieces(m.key)
    ensures Bind(fields, [m] + ms) == Bind(fields[Decode(m.key) := Render(m.value)], ms)
  {
    assert ([m] + ms)[1..] == ms;
  }

  /** What one turn of the member loop leaves to do. */
  lemma RemainingTurn(t: string, p: nat, fields: FieldMap)
    requires p <= |t|
    ensures var all := Remaining(t, p, fields);
            if p == |t| then all == Failure(UnterminatedObject)
            else
              var r := ReadField(t, p, true);
              if r.Err? then all == Failure(r.error)
              else
                var next := fields[Decode(r.value.key) := Render(r.value.value)];
                if r.end == |t| then all == Failure(UnterminatedObject)
                else if t[r.end] == ',' then all == Remaining(t, SkipWs(t, r.end + 1), next)
                else if t[r.end] == '}' then
                  all == if SkipWs(t, r.end + 1) == |t| then Success(next) else Failure(TrailingContent)
                else all == Failure(ExpectedTopCommaOrBrace)
  {
    hide WFMembers, ReadField, ReadMembers, Bind, Render, Decode, SkipWs, RenderMembers, Has, WFPieces, WFField;
    MembersOutcome(t, p, true);
    if ReadMembers(t, p, true).Ok? {
      var m, a := ReadField(t, p, true).value, ReadField(t, p, true).end;
      MembersTurn(t, p, true);
      ReadMembersSound(t, p, true);
      EmptyWF();
      if t[a] == ',' {
        var n := SkipWs(t, a + 1);
        ReadMembersSound(t, n, true);
        BindCons(fields, m.(gap := t[a + 1..n]), ReadMembers(t, n, true).value);
      } else {
        BindCons(fields, m, []);
        BindNothing(fields[Decode(m.key) := Render(m.value)]);
      }
    }
  }

  lemma BindNothing(fields: FieldMap)
    ensures Bind(fields, []) == fields
  {
  }

  method Escape(text: string) returns (escaped: string)
    ensures escaped == JsonStrings.Escape(text)
  {
    escaped := "";
    for i := 0 to |text|
      invariant escaped == JsonStrings.Escape(text[..i])
    {
      var ch := text[i];
      assert text[..i + 1] == text[..i] + [ch];
      EscapeAppend(text[..i], ch);
      if ch == '"' {
        escaped := escaped + "\\\"";
      } else if ch == '\\' {
        escaped := escaped + "\\\\";
      } else if ch == '\U{08}' {
        escaped := escaped + "\\b";
      } else if ch == '\U{0C}' {
        escaped := escaped + "\\f";
      } else if ch == '\n' {
        escaped := escaped + "\\n";
      } else if ch == '\r' {
        escaped := escaped + "\\r";
      } else if ch == '\t' {
        escaped := escaped + "\\t";
      } else if ch as int < 0x20 {
        escaped := escaped + "\\u00" + [HexUpper(ch as int / 16)] + [HexUpper(ch as int % 16)];
      } else {
        escaped := escaped + [ch];
      }
    }
    assert text[..|text|] == text;
  }

  method Trim(value: string) returns (r: string)
    ensures r == Bytes.Trim(value)
  {
    hide DropBack;
    var begin := SkipWhitespace(value, 0);
    r := TrimEnd(value[begin..]);
  }

  method TrimEnd(value: string) returns (r: string)
    ensures r == DropBack(value)
  {
    var end := |value|;
    while end > 0 && IsSpace(value[end - 1])
      invariant 0 <= end <= |value| && DropBack(value[..end]) == DropBack(value)
    {
      assert value[..end][..end - 1] == value[..end - 1];
      end := end - 1;
    }
    r := value[..end];
  }

  // The getters: an absent key, or text of the wrong kind, gives `None`.

  method TryGetStringField(fields: FieldMap, key: string) returns (value: Option<string>)
    ensures value == TryGetString(fields, key)
  {
    if key !in fields {
      return None;
    }
    var raw := fields[key];
    var ok, pos, parsed, ignored := ParseJsonString(raw, 0);
    if !ok {
      return None;
    }
    pos := SkipWhitespace(raw, pos);
    if pos != |raw| {
      return None;
    }
    value := Some(parsed);
  }

  method TryGetObjectField(fields: FieldMap, key: string) returns (value: Option<FieldMap>)
    ensures value == TryGetObject(fields, key)
  {
    if key !in fields {
      return None;
    }
    var ok, parsed, ignored := ParseObjectFields(fields[key]);
    value := if ok then Some(parsed) else None;
  }

  method TryGetRawField(fields: FieldMap, key: string) returns (value: Option<string>)
    ensures value == TryGetRaw(fields, key)
  {
    if key !in fields {
      return None;
    }
    var trimmed := Trim(fields[key]);
    value := Some(trimmed);
  }
}

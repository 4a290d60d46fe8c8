/** What the top-level extractor and the field getters compute, and what they mean:
    the map they build is the last-wins reading of a syntax tree. */
module JsonFields {
  import opened Bytes
  import opened Decimals
  import opened JsonGrammar
  import opened JsonReader

  type FieldMap = map<string, string>

  // ------------------------------------------------------- the text as a tree

  /** The object tree of a whole text, or the message with which the extractor rejects it. */
  function Top(t: string): (r: Result<Value, ScanError>)
    ensures r.Success? ==> r.value.Obj?
  {
    var p := SkipWs(t, 0);
    if p == |t| || t[p] != '{' then Failure(NotAnObject)
    else
      match ReadObject(t, p, true)
      case Err(m) => Failure(m)
      case Ok(o, end) => if SkipWs(t, end) == |t| then Success(o) else Failure(TrailingContent)
  }

  ghost predicate ObjectText(t: string, o: Value) {
    exists w1: string, w2: string :: Blank(w1) && Blank(w2) && t == w1 + Render(o) + w2
  }

  /** The extractor accepts exactly the well-formed objects between blanks, and reads back the
      one tree whose rendering the text is. */
  lemma GrammarEquivalence(t: string, o: Value)
    ensures Top(t) == Success(o) <==> o.Obj? && WF(o) && ObjectText(t, o)
  {
    if Top(t) == Success(o) {
      TopSound(t);
    }
    if o.Obj? && WF(o) && ObjectText(t, o) {
      var w1: string, w2: string :| Blank(w1) && Blank(w2) && t == w1 + Render(o) + w2;
      TopComplete(w1, o, w2);
    }
  }

  lemma TopSound(t: string)
    requires Top(t).Success?
    ensures WF(Top(t).value) && ObjectText(t, Top(t).value)
  {
    hide Has, WF, Render, SkipWs, ReadObject;
    var p := SkipWs(t, 0);
    var o := Top(t).value;
    ReadObjectSound(t, p, true);
    var end := p + |Render(o)|;
    HasSlice(t, p, Render(o));
    var w1, w2 := t[..p], t[end..];
    assert Blank(w1) && Blank(w2);
    assert t == w1 + t[p..end] + w2;
  }

  lemma TopComplete(w1: string, o: Value, w2: string)
    requires Blank(w1) && Blank(w2) && o.Obj? && WF(o)
    ensures Top(w1 + Render(o) + w2) == Success(o)
  {
    hide Has, Render, SkipWs, ReadObject;
    var t := w1 + Render(o) + w2;
    var p, end := |w1|, |w1| + |Render(o)|;
    HasWithin(w1, Render(o), w2);
    ValueHead(t, p, o);
    BlanksComplete(t, 0, w1, t[p]);
    ReadObjectComplete(t, p, o.blank, o.members, true);
    assert t[end..] == w2;
    HasSlice(t, end, w2);
    SkipWsExact(t, end, w2);
  }

  /** A text without a brace at its first non-blank is rejected for that. */
  lemma TopWithoutBrace(w: string, rest: string)
    requires Blank(w) && (rest == "" || (!IsSpace(rest[0]) && rest[0] != '{'))
    ensures Top(w + rest) == Failure(NotAnObject)
  {
    hide Has, SkipWs;
    var t := w + rest;
    HasWithin("", w, rest);
    assert "" + w + rest == t;
    SkipWsExact(t, 0, w);
  }

  /** A text that goes on behind an object is rejected for that. */
  lemma TopTrailing(w1: string, o: Value, rest: string)
    requires Blank(w1) && o.Obj? && WF(o) && !Blank(rest)
    ensures Top(w1 + Render(o) + rest) == Failure(TrailingContent)
  {
    hide Has, Render, SkipWs, ReadObject;
    var t := w1 + Render(o) + rest;
    var p, end := |w1|, |w1| + |Render(o)|;
    HasWithin(w1, Render(o), rest);
    ValueHead(t, p, o);
    BlanksComplete(t, 0, w1, t[p]);
    ReadObjectComplete(t, p, o.blank, o.members, true);
    assert t[end..] == rest;
    var i :| 0 <= i < |rest| && !IsSpace(rest[i]);
    assert t[end + i] == rest[i];
  }

  /** In a concatenation of three, each part stands at its place. */
  lemma HasWithin(a: string, s: string, b: string)
    ensures Has(a + s + b, 0, a) && Has(a + s + b, |a|, s) && Has(a + s + b, |a| + |s|, b)
  {
    hide Has;
    var t := a + s + b;
    HasSlice(t, 0, t);
    HasConcat(t, 0, a + s, b);
    HasConcat(t, 0, a, s);
  }

  /** The extractor accepts a text exactly when the skipper, started at the first non-blank,
      succeeds there and only blanks follow; both then read the same tree. */
  lemma ExtractorAgreesWithSkipper(t: string)
    ensures var p := SkipWs(t, 0);
            Top(t).Success? <==> (p < |t| && t[p] == '{' && ReadObject(t, p, false).Ok? &&
              SkipWs(t, ReadObject(t, p, false).end) == |t|)
    ensures Top(t).Success? ==>
              Ok(Top(t).value, ReadObject(t, SkipWs(t, 0), false).end) == ReadObject(t, SkipWs(t, 0), false)
  {
    hide SkipWs, ReadMembers;
    var p := SkipWs(t, 0);
    if p < |t| && t[p] == '{' {
      MessagesAside(t, SkipWs(t, p + 1));
    }
  }

  /** The two copies of the member loop differ in their messages only. */
  lemma {:induction false} MessagesAside(t: string, p: nat)
    requires p <= |t|
    ensures ReadMembers(t, p, true).Ok? <==> ReadMembers(t, p, false).Ok?
    ensures ReadMembers(t, p, true).Ok? ==> ReadMembers(t, p, true) == ReadMembers(t, p, false)
    decreases |t| - p
  {
    hide SkipWs, ReadField;
    FieldMessagesAside(t, p);
    if p < |t| && ReadField(t, p, true).Ok? {
      var a := ReadField(t, p, true).end;
      if a < |t| && t[a] == ',' {
        MessagesAside(t, SkipWs(t, a + 1));
      }
    }
  }

  lemma FieldMessagesAside(t: string, p: nat)
    requires p <= |t|
    ensures ReadField(t, p, true).Ok? <==> ReadField(t, p, false).Ok?
    ensures ReadField(t, p, true).Ok? ==> ReadField(t, p, true) == ReadField(t, p, false)
  {
    hide SkipWs, ReadValue, ReadString;
  }

  // ---------------------------------------------------------- last-wins maps

  /** The value a key has in a member list: that of its last occurrence. */
  ghost function Lookup(ms: seq<Member>, key: string): (r: Option<Value>)
    requires WFMembers(ms)
    ensures r.Some? ==> WF(r.value)
  {
    if ms == [] then None
    else
      assert WFField(ms[0]);
      match Lookup(ms[1..], key)
      case Some(v) => Some(v)
      case None => if Decode(ms[0].key) == key then Some(ms[0].value) else None
  }

  /** The field map after assigning every member in turn, starting from `fields`. */
  function Bind(fields: FieldMap, ms: seq<Member>): FieldMap
    requires WFMembers(ms)
    decreases |ms|
  {
    if ms == [] then fields
    else
      assert WFField(ms[0]);
      Bind(fields[Decode(ms[0].key) := Render(ms[0].value)], ms[1..])
  }

  /** Assigning in turn leaves at every key the rendering of its last value. */
  lemma {:induction false} BindIsLookup(fields: FieldMap, ms: seq<Member>, key: string)
    requires WFMembers(ms)
    ensures var m := Bind(fields, ms);
            match Lookup(ms, key)
            case Some(v) => key in m && m[key] == Render(v)
            case None => (key in m <==> key in fields) && (key in fields ==> m[key] == fields[key])
    decreases |ms|
  {
    if ms == [] {
    } else {
      assert WFField(ms[0]);
      BindIsLookup(fields[Decode(ms[0].key) := Render(ms[0].value)], ms[1..], key);
    }
  }

  /** The field map of a whole text. */
  function Fields(t: string): Result<FieldMap, ScanError> {
    match Top(t)
    case Failure(m) => Failure(m)
    case Success(o) => TopSound(t); Success(Bind(map[], o.members))
  }

  /** Parsing yields, for every object text and every key, the verbatim text of its last value. */
  lemma FieldsMeaning(t: string, o: Value, key: string)
    requires o.Obj? && WF(o) && ObjectText(t, o)
    ensures Fields(t).Success?
    ensures var m := Fields(t).value;
            (key in m <==> Lookup(o.members, key).Some?) &&
            (key in m ==> m[key] == Render(Lookup(o.members, key).value))
  {
    hide Has, SkipWs, Render, ObjectText, Bind, Lookup, Top;
    GrammarEquivalence(t, o);
    BindIsLookup(map[], o.members, key);
  }

  // ---------------------------------------------------------- field getters

  function TryGetString(fields: FieldMap, key: string): Option<string> {
    if key !in fields then None
    else
      match ReadString(fields[key], 0)
      case Err(_) => None
      case Ok(pieces, end) => if SkipWs(fields[key], end) == |fields[key]| then Some(Decode(pieces)) else None
  }

  function TryGetObject(fields: FieldMap, key: string): Option<FieldMap> {
    if key in fields && Fields(fields[key]).Success? then Some(Fields(fields[key]).value) else None
  }

  function TryGetRaw(fields: FieldMap, key: string): Option<string> {
    if key in fields then Some(Trim(fields[key])) else None
  }

  /** A 32-bit decimal integer, as `std::stoi` reads the whole of a trimmed text in base ten. */
  function TryGetInt(fields: FieldMap, key: string): Option<int> {
    if key in fields then ParseInt32(Trim(fields[key])) else None
  }

  function ParseInt32(s: string): Option<int> {
    var signed := s != "" && (s[0] == '-' || s[0] == '+');
    var digits := if signed then s[1..] else s;
    if digits == "" || !AllDigits(digits) then None
    else
      var magnitude: int := DecimalValue(digits);
      var n := if signed && s[0] == '-' then -magnitude else magnitude;
      if -0x8000_0000 <= n < 0x8000_0000 then Some(n) else None
  }

  /** A text is an integer field exactly if it is digits, with a sign or without, worth a number of
      32 bits. */
  lemma IntReads(s: string, n: int)
    ensures ParseInt32(s) == Some(n) <==>
            -0x8000_0000 <= n < 0x8000_0000 &&
            (AreDigits(s, n) || (s != "" && s[0] == '+' && AreDigits(s[1..], n)) ||
             (s != "" && s[0] == '-' && AreDigits(s[1..], -n)))
  {
    hide DecimalValue;
  }

  ghost predicate AreDigits(s: string, n: int) {
    s != "" && AllDigits(s) && DecimalValue(s) == n
  }

  // ------------------------------------------------------------- closure

  /** Rescanning the text of a value alone reads the same value and consumes all of it. */
  lemma RescanValue(v: Value)
    requires WF(v)
    ensures ReadValue(Render(v), 0) == Ok(v, |Render(v)|)
    ensures SkipWs(Render(v), 0) == 0
  {
    HasSlice(Render(v), 0, Render(v));
    assert Has(Render(v), 0, Render(v));
    hide Has, Render;
    ValueHead(Render(v), 0, v);
    ReadValueComplete(Render(v), 0, v);
  }

  /** Nested extraction accepts exactly the values of its kind. */
  lemma RescanByKind(v: Value)
    requires WF(v)
    ensures Top(Render(v)) == (if v.Obj? then Success(v) else Failure(NotAnObject))
    ensures var r := ReadString(Render(v), 0); if v.Str? then r == Ok(v.pieces, |Render(v)|) else r.Err?
  {
    var t := Render(v);
    HasSlice(t, 0, t);
    assert Has(t, 0, t);
    hide Has, WF;
    ValueHead(t, 0, v);
    if v.Obj? {
      assert t == "" + t + "" && Blank("");
      TopComplete("", v, "");
    }
    if v.Str? {
      RescanValue(v);
    }
  }

  lemma {:induction false} LastByte(v: Value)
    requires WF(v)
    ensures var t := Render(v); |t| > 0 && !IsSpace(t[|t| - 1])
    decreases v, 1
  {
    match v
    case Scalar(_) =>
    case Str(ps) => assert Quoted(ps)[|Quoted(ps)| - 1] == '"';
    case Arr(blank, es) => if es != [] { LastByteElements(es); }
    case Obj(blank, ms) => if ms != [] { LastByteMembers(ms); }
  }

  lemma {:induction false} LastByteElements(es: seq<Element>)
    requires es != []
    ensures var t := RenderElements(es); |t| > 0 && t[|t| - 1] == ']'
    decreases es, 0
  {
    if |es| > 1 { LastByteElements(es[1..]); }
  }

  lemma {:induction false} LastByteMembers(ms: seq<Member>)
    requires ms != []
    ensures var t := RenderMembers(ms); |t| > 0 && t[|t| - 1] == '}'
    decreases ms, 0
  {
    if |ms| > 1 { LastByteMembers(ms[1..]); }
  }

  lemma ValueIsTrimmed(v: Value)
    requires WF(v)
    ensures Trim(Render(v)) == Render(v)
  {
    var t := Render(v);
    LastByte(v);
    HasSlice(t, 0, t);
    ValueHead(t, 0, v);
    assert t == "" + t + "";
    TrimExact("", t, "");
  }

  /** Every raw value that extraction stores can be extracted again: it is one value from end to
      end, it is trimmed, and each getter accepts it exactly when its first byte says so. */
  lemma SubstringClosure(t: string, key: string)
    requires Fields(t).Success? && key in Fields(t).value
    ensures var m := Fields(t).value; var raw := m[key];
            raw != "" && SkipWs(raw, 0) == 0 && ReadValue(raw, 0).Ok? && ReadValue(raw, 0).end == |raw| &&
            Trim(raw) == raw && TryGetRaw(m, key) == Some(raw) &&
            (TryGetObject(m, key).Some? <==> raw[0] == '{') &&
            (TryGetString(m, key).Some? <==> raw[0] == '"')
  {
    var o := Top(t).value;
    TopSound(t);
    BindIsLookup(map[], o.members, key);
    var v := Lookup(o.members, key).value;
    RescanValue(v);
    RescanByKind(v);
    ValueIsTrimmed(v);
    HasSlice(Render(v), 0, Render(v));
    ValueHead(Render(v), 0, v);
  }
}
